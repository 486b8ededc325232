/** `filter` and `map` over sequences, as the modelled code uses them on
    arrays, with the facts the rest of the model needs about them. */
module Seqs {
  import opened Wrappers

  function Filter<T>(keep: T -> bool, s: seq<T>): (r: seq<T>)
    ensures |r| <= |s|
  {
    if s == [] then [] else (if keep(s[0]) then [s[0]] else []) + Filter(keep, s[1..])
  }

  function Map<T, U>(f: T -> U, s: seq<T>): (r: seq<U>)
    ensures |r| == |s|
    ensures forall i :: 0 <= i < |s| ==> r[i] == f(s[i])
  {
    if s == [] then [] else [f(s[0])] + Map(f, s[1..])
  }

  /** An element is kept exactly when it was there and passes the test. */
  lemma {:induction false} FilterMembership<T>(keep: T -> bool, s: seq<T>, x: T)
    ensures x in Filter(keep, s) <==> x in s && keep(x)
  {
    if s != [] {
      FilterMembership(keep, s[1..], x);
      assert s == [s[0]] + s[1..];
    }
  }

  /** Filtering distributes over concatenation, so the order of the kept
      elements is the order they had. */
  lemma {:induction false} FilterConcat<T>(keep: T -> bool, a: seq<T>, b: seq<T>)
    ensures Filter(keep, a + b) == Filter(keep, a) + Filter(keep, b)
  {
    if a == [] {
      assert a + b == b;
    } else {
      var head := if keep(a[0]) then [a[0]] else [];
      calc {
        Filter(keep, a + b);
        { assert (a + b)[0] == a[0]; assert (a + b)[1..] == a[1..] + b; }
        head + Filter(keep, a[1..] + b);
        { FilterConcat(keep, a[1..], b); }
        head + (Filter(keep, a[1..]) + Filter(keep, b));
        (head + Filter(keep, a[1..])) + Filter(keep, b);
      }
    }
  }

  /** Nothing is dropped when every element passes. */
  lemma {:induction false} FilterAll<T>(keep: T -> bool, s: seq<T>)
    requires forall i :: 0 <= i < |s| ==> keep(s[i])
    ensures Filter(keep, s) == s
  {
    if s != [] {
      FilterAll(keep, s[1..]);
    }
  }

  /** Appending an element that fails the test and filtering gives back a
      sequence whose elements all pass. */
  lemma FilterDropsLast<T>(keep: T -> bool, s: seq<T>, x: T)
    requires forall y :: y in s ==> keep(y)
    requires !keep(x)
    ensures Filter(keep, s + [x]) == s
  {
    FilterConcat(keep, s, [x]);
    FilterAll(keep, s);
    assert Filter(keep, [x]) == [] by {
      assert [x][1..] == [];
    }
    assert s + [] == s;
  }

  /** Filtering twice with the same test is filtering once. */
  lemma {:induction false} FilterIdempotent<T>(keep: T -> bool, s: seq<T>)
    ensures Filter(keep, Filter(keep, s)) == Filter(keep, s)
  {
    if s != [] {
      FilterIdempotent(keep, s[1..]);
      FilterConcat(keep, if keep(s[0]) then [s[0]] else [], Filter(keep, s[1..]));
    }
  }

  /** Mapping distributes over concatenation. */
  lemma MapConcat<T, U>(f: T -> U, a: seq<T>, b: seq<T>)
    ensures Map(f, a + b) == Map(f, a) + Map(f, b)
  {
  }

  /** Nothing is kept exactly when no element passes. */
  lemma FilterEmpty<T>(keep: T -> bool, s: seq<T>)
    ensures |Filter(keep, s)| == 0 <==> forall x :: x in s ==> !keep(x)
  {
    var r := Filter(keep, s);
    forall x | x in s && keep(x) ensures |r| != 0 {
      FilterMembership(keep, s, x);
    }
    if |r| != 0 {
      FilterMembership(keep, s, r[0]);
    }
  }

  /** No two elements share a key. */
  ghost predicate DistinctBy<T, K>(key: T -> K, s: seq<T>) {
    forall i, j :: 0 <= i < j < |s| ==> key(s[i]) != key(s[j])
  }

  /** Filtering keeps keys distinct. */
  lemma {:induction false} FilterDistinct<T, K>(keep: T -> bool, key: T -> K, s: seq<T>)
    requires DistinctBy(key, s)
    ensures DistinctBy(key, Filter(keep, s))
  {
    if s != [] {
      var tail := s[1..];
      assert DistinctBy(key, tail) by {
        forall i, j | 0 <= i < j < |tail| ensures key(tail[i]) != key(tail[j]) {
          assert tail[i] == s[i + 1] && tail[j] == s[j + 1];
        }
      }
      FilterDistinct(keep, key, tail);
      var rest := Filter(keep, tail);
      if keep(s[0]) {
        var r := [s[0]] + rest;
        forall j | 0 < j < |r| ensures key(r[0]) != key(r[j]) {
          assert r[j] == rest[j - 1];
          FilterMembership(keep, tail, rest[j - 1]);
          var k :| 0 <= k < |tail| && tail[k] == rest[j - 1];
          assert tail[k] == s[k + 1];
        }
        forall i, j | 0 <= i < j < |r| ensures key(r[i]) != key(r[j]) {
          if i > 0 {
            assert r[i] == rest[i - 1] && r[j] == rest[j - 1];
          }
        }
      }
    }
  }

  /** A decoded element in front of the decoded rest: the first error wins,
      an element that decodes to nothing adds nothing. */
  function Prepend<T, E>(first: Result<Option<T>, E>, rest: Result<seq<T>, E>): (r: Result<seq<T>, E>)
    ensures r.Ok? <==> first.Ok? && rest.Ok?
    ensures r.Ok? ==> |r.value| <= 1 + |rest.value|
  {
    match first
    case Err(e) => Err(e)
    case Ok(head) =>
      match rest
      case Err(e) => Err(e)
      case Ok(tail) => Ok((if head.Some? then [head.value] else []) + tail)
  }

  /** Applies a partial decoder to every element in order, element `i` with
      the index `start + i`: the first error wins, the values found are kept
      in order and the elements that decode to nothing are dropped. */
  function CollectSome<A, T, E>(xs: seq<A>, start: nat, f: (A, nat) -> Result<Option<T>, E>): (r: Result<seq<T>, E>)
    ensures r.Ok? ==> |r.value| <= |xs|
  {
    if xs == [] then Ok([])
    else Prepend(f(xs[0], start), CollectSome(xs[1..], start + 1, f))
  }

  /** Collecting succeeds exactly when every element decodes. */
  lemma {:induction false} CollectSomeOk<A, T, E>(xs: seq<A>, start: nat, f: (A, nat) -> Result<Option<T>, E>)
    ensures CollectSome(xs, start, f).Ok? <==> forall i :: 0 <= i < |xs| ==> f(xs[i], start + i).Ok?
  {
    if xs != [] {
      CollectSomeOk(xs[1..], start + 1, f);
      assert forall i :: 1 <= i < |xs| ==> xs[i] == xs[1..][i - 1] && start + i == start + 1 + (i - 1);
    }
  }

  /** Prepending before a concatenation is prepending before its first part. */
  lemma PrependAppend<T, E>(first: Result<Option<T>, E>, a: seq<T>, b: seq<T>)
    requires first.Ok?
    ensures Prepend(first, Ok(a + b)) == Ok(Prepend(first, Ok(a)).value + b)
  {
    var head := if first.value.Some? then [first.value.value] else [];
    assert head + (a + b) == (head + a) + b;
  }

  /** Collecting over two runs is collecting over each, the second numbered
      on from the first. */
  lemma {:induction false} CollectSomeConcat<A, T, E>(xs: seq<A>, ys: seq<A>, start: nat, f: (A, nat) -> Result<Option<T>, E>)
    requires CollectSome(xs, start, f).Ok? && CollectSome(ys, start + |xs|, f).Ok?
    ensures CollectSome(xs + ys, start, f) == Ok(CollectSome(xs, start, f).value + CollectSome(ys, start + |xs|, f).value)
  {
    var rest := CollectSome(ys, start + |xs|, f).value;
    if xs == [] {
      assert xs + ys == ys;
      assert CollectSome(xs, start, f).value + rest == rest;
    } else {
      var zs, first := xs + ys, f(xs[0], start);
      var a1 := CollectSome(xs[1..], start + 1, f);
      assert zs[0] == xs[0] && zs[1..] == xs[1..] + ys;
      assert start + |xs| == start + 1 + |xs[1..]|;
      CollectSomeConcat(xs[1..], ys, start + 1, f);
      PrependAppend(first, a1.value, rest);
    }
  }

  /** An element that decodes to nothing between two runs adds nothing. */
  lemma CollectSomeAround<A, T, E>(xs: seq<A>, m: A, ys: seq<A>, start: nat, f: (A, nat) -> Result<Option<T>, E>)
    requires CollectSome(xs, start, f).Ok? && f(m, start + |xs|) == Ok(None)
    requires CollectSome(ys, start + |xs| + 1, f).Ok?
    ensures CollectSome(xs + [m] + ys, start, f)
            == Ok(CollectSome(xs, start, f).value + CollectSome(ys, start + |xs| + 1, f).value)
  {
    var a, c := CollectSome(xs, start, f).value, CollectSome(ys, start + |xs| + 1, f).value;
    assert CollectSome([m], start + |xs|, f) == Ok([]) by {
      assert [m][1..] == [];
    }
    CollectSomeConcat(xs, [m], start, f);
    assert a + [] == a;
    assert start + |xs + [m]| == start + |xs| + 1;
    CollectSomeConcat(xs + [m], ys, start, f);
  }

  /** `map` with the index of each element, counted from `start`. */
  function MapIndexed<A, R>(f: (A, nat) -> R, xs: seq<A>, start: nat): (r: seq<R>)
    ensures |r| == |xs|
  {
    if xs == [] then [] else [f(xs[0], start)] + MapIndexed(f, xs[1..], start + 1)
  }

  /** Element `i` of the result is `f` at the `i`-th element and its index. */
  lemma {:induction false} MapIndexedAt<A, R>(f: (A, nat) -> R, xs: seq<A>, start: nat, i: nat)
    requires i < |xs|
    ensures MapIndexed(f, xs, start)[i] == f(xs[i], start + i)
  {
    if i > 0 {
      MapIndexedAt(f, xs[1..], start + 1, i - 1);
    }
  }

  /** The values found among decoding results, in order: the results that
      decode to nothing are dropped, and so are errors. */
  function Found<T, E>(rs: seq<Result<Option<T>, E>>): (r: seq<T>)
    ensures |r| <= |rs|
  {
    if rs == [] then []
    else (if rs[0].Ok? && rs[0].value.Some? then [rs[0].value.value] else []) + Found(rs[1..])
  }

  /** A value is found exactly when some result holds it. */
  lemma {:induction false} FoundMembers<T, E>(rs: seq<Result<Option<T>, E>>, v: T)
    ensures v in Found(rs) <==> Ok(Some(v)) in rs
  {
    if rs != [] {
      FoundMembers(rs[1..], v);
      assert rs == [rs[0]] + rs[1..];
    }
  }

  /** A successful collection is the decoder mapped over every element, then
      the values found kept in order. */
  lemma {:induction false} CollectSomeFound<A, T, E>(xs: seq<A>, start: nat, f: (A, nat) -> Result<Option<T>, E>)
    ensures CollectSome(xs, start, f).Ok? ==> CollectSome(xs, start, f).value == Found(MapIndexed(f, xs, start))
  {
    if xs != [] && CollectSome(xs, start, f).Ok? {
      CollectSomeFound(xs[1..], start + 1, f);
      var m := MapIndexed(f, xs, start);
      assert m == [f(xs[0], start)] + MapIndexed(f, xs[1..], start + 1);
      assert m[1..] == MapIndexed(f, xs[1..], start + 1);
    }
  }

  /** Applies a partial decoder to every element in order: the first error
      wins, otherwise the first value found, if any. */
  function FirstSome<A, T, E>(xs: seq<A>, f: A -> Result<Option<T>, E>): (r: Result<Option<T>, E>)
  {
    if xs == [] then Ok(None)
    else
      match f(xs[0])
      case Err(e) => Err(e)
      case Ok(first) =>
        match FirstSome(xs[1..], f)
        case Err(e) => Err(e)
        case Ok(rest) => Ok(if first.Some? then first else rest)
  }

  /** The first-value search succeeds exactly when every element decodes,
      finds a value exactly when some element decodes to one, and what it
      finds is what some element decodes to. */
  lemma {:induction false} FirstSomeOk<A, T, E>(xs: seq<A>, f: A -> Result<Option<T>, E>)
    ensures var r := FirstSome(xs, f);
      && (r.Ok? <==> forall i :: 0 <= i < |xs| ==> f(xs[i]).Ok?)
      && (r.Ok? ==> (r.value.Some? <==> exists i :: 0 <= i < |xs| && f(xs[i]).value.Some?))
      && (r.Ok? && r.value.Some? ==> exists i :: 0 <= i < |xs| && f(xs[i]) == Ok(r.value))
  {
    if xs != [] {
      FirstSomeOk(xs[1..], f);
      assert forall i :: 1 <= i < |xs| ==> xs[i] == xs[1..][i - 1];
      if FirstSome(xs, f).Ok? && f(xs[0]).value.None? && FirstSome(xs[1..], f).value.Some? {
        var j :| 0 <= j < |xs[1..]| && f(xs[1..][j]) == Ok(FirstSome(xs[1..], f).value);
        assert f(xs[j + 1]) == Ok(FirstSome(xs, f).value);
      }
    }
  }

  /** Elements that decode to nothing do not change the outcome. */
  lemma {:induction false} FirstSomeSkips<A, T, E>(xs: seq<A>, ys: seq<A>, f: A -> Result<Option<T>, E>)
    requires forall i :: 0 <= i < |xs| ==> f(xs[i]) == Ok(None)
    ensures FirstSome(xs + ys, f) == FirstSome(ys, f)
  {
    if xs == [] {
      assert xs + ys == ys;
    } else {
      var zs := xs + ys;
      assert zs[0] == xs[0];
      assert zs[1..] == xs[1..] + ys;
      FirstSomeSkips(xs[1..], ys, f);
    }
  }

  /** The first value found is that of the first element that decodes to
      one, provided every later element decodes. */
  lemma FirstSomeAround<A, T, E>(xs: seq<A>, m: A, ys: seq<A>, f: A -> Result<Option<T>, E>, v: T)
    requires forall i :: 0 <= i < |xs| ==> f(xs[i]) == Ok(None)
    requires f(m) == Ok(Some(v))
    requires forall i :: 0 <= i < |ys| ==> f(ys[i]).Ok?
    ensures FirstSome(xs + [m] + ys, f) == Ok(Some(v))
  {
    FirstSomeSkips(xs, [m] + ys, f);
    FirstSomeOk(ys, f);
    assert xs + [m] + ys == xs + ([m] + ys);
    assert ([m] + ys)[0] == m && ([m] + ys)[1..] == ys;
  }
}
