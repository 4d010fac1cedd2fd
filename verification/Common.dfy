/** Definitions that several components share. */
module Common {

  /** A value that may be missing: a `None` in the Python source. */
  datatype Option<+T> = None | Some(value: T) {
    function GetOr(default: T): T {
      match this
      case Some(v) => v
      case None => default
    }
  }

  /** The row number of a claimed review. */
  type ReviewId = nat

  function Sum(s: seq<real>): real {
    if s == [] then 0.0 else s[0] + Sum(s[1..])
  }

  function Min(a: real, b: real): real {
    if b < a then b else a
  }

  /** `n` times `x`, as a sum. */
  function Times(n: nat, x: real): real {
    if n == 0 then 0.0 else Times(n - 1, x) + x
  }

  lemma {:induction false} TimesIsProduct(n: nat, x: real)
    ensures Times(n, x) == n as real * x
  {
    if n > 0 {
      TimesIsProduct(n - 1, x);
      assert n as real == (n - 1) as real + 1.0;
      assert ((n - 1) as real + 1.0) * x == (n - 1) as real * x + x;
    }
  }

  lemma {:induction false} ProductOrder(x: real, y: real, c: real)
    requires c > 0.0
    ensures x <= y <==> x * c <= y * c
  {
    if x <= y {
      assert (y - x) * c >= 0.0;
    } else {
      assert (x - y) * c > 0.0;
    }
  }

  /** How many times a positive length fits into another. */
  lemma {:induction false} FitsTimes(n: nat, x: real, d: real)
    requires x > 0.0 && Times(n, x) <= d
    ensures n <= (d / x).Floor
  {
    TimesIsProduct(n, x);
    var q := d / x;
    assert q * x == d;
    ProductOrder(n as real, q, x);
  }

  lemma {:induction false} FloorGrows(x: real, d: real, e: real)
    requires x > 0.0 && d <= e
    ensures (d / x).Floor <= (e / x).Floor
  {
    var p, q := d / x, e / x;
    assert p * x == d && q * x == e;
    ProductOrder(p, q, x);
  }

  lemma {:induction false} SumOfConcat(s: seq<real>, t: seq<real>)
    ensures Sum(s + t) == Sum(s) + Sum(t)
  {
    if s == [] {
      assert s + t == t;
    } else {
      assert (s + t)[1..] == s[1..] + t;
      SumOfConcat(s[1..], t);
    }
  }

  /** A sum does not depend on the order of its terms. */
  lemma {:induction false} SumOfPermutation(s: seq<real>, t: seq<real>)
    requires multiset(s) == multiset(t)
    ensures Sum(s) == Sum(t)
  {
    if s == [] {
      assert |multiset(t)| == 0;
    } else {
      HeadTail(s);
      var i, rest := TakeOut(t, s[0]);
      assert t == t[..i] + ([t[i]] + t[i + 1..]);
      assert multiset(s[1..]) == multiset(s) - multiset{s[0]} == multiset(rest);
      SumOfPermutation(s[1..], rest);
      SumOfConcat(t[..i], t[i + 1..]);
      SumOfConcat(t[..i], [t[i]] + t[i + 1..]);
    }
  }

  /** `Map(f, s)[i] == f(s[i])`. */
  function Map<A, B>(f: A -> B, s: seq<A>): (r: seq<B>)
    ensures |r| == |s|
    ensures forall i | 0 <= i < |s| :: r[i] == f(s[i])
  {
    seq(|s|, i requires 0 <= i < |s| => f(s[i]))
  }

  lemma {:induction false} MapCompose<A, B, C>(f: A -> B, g: B -> C, h: A -> C, s: seq<A>)
    requires forall x | x in s :: g(f(x)) == h(x)
    ensures Map(g, Map(f, s)) == Map(h, s)
  {
    forall i | 0 <= i < |s|
      ensures Map(g, Map(f, s))[i] == Map(h, s)[i]
    {
      assert s[i] in s;
    }
  }

  /** Takes one occurrence of `x` out of a list. */
  lemma {:induction false} TakeOut<A>(s: seq<A>, x: A) returns (i: nat, rest: seq<A>)
    requires x in multiset(s)
    ensures i < |s| && s[i] == x
    ensures rest == s[..i] + s[i + 1..]
    ensures multiset(s) == multiset{x} + multiset(rest)
  {
    i :| 0 <= i < |s| && s[i] == x;
    rest := s[..i] + s[i + 1..];
    assert s == s[..i] + ([x] + s[i + 1..]);
  }

  lemma {:induction false} HeadTail<A>(s: seq<A>)
    requires s != []
    ensures s[0] in multiset(s)
    ensures multiset(s) == multiset{s[0]} + multiset(s[1..])
  {
    assert s == [s[0]] + s[1..];
  }

  /** The elements of a list put together around one element. */
  lemma {:induction false} AtSeam<A>(a: seq<A>, x: A, b: seq<A>, n: nat)
    requires n <= |a| + |b|
    ensures |a + [x] + b| == |a| + 1 + |b|
    ensures (a + [x] + b)[n] == if n < |a| then a[n] else if n == |a| then x else b[n - |a| - 1]
  {
  }

  lemma {:induction false} PrefixSnoc<A>(s: seq<A>, n: nat)
    requires n < |s|
    ensures s[..n + 1] == s[..n] + [s[n]]
  {
  }

  lemma {:induction false} MapOfTakeOut<A, B>(f: A -> B, t: seq<A>, i: nat)
    requires i < |t|
    ensures multiset(Map(f, t)) == multiset{f(t[i])} + multiset(Map(f, t[..i] + t[i + 1..]))
  {
    var front, back := Map(f, t[..i]), Map(f, t[i + 1..]);
    assert Map(f, t[..i] + t[i + 1..]) == front + back;
    assert Map(f, t) == front + ([f(t[i])] + back);
  }

  lemma {:induction false} MapOfPermutation<A, B>(f: A -> B, s: seq<A>, t: seq<A>)
    requires multiset(s) == multiset(t)
    ensures multiset(Map(f, s)) == multiset(Map(f, t))
    decreases s
  {
    if s == [] {
      assert |multiset(t)| == 0;
    } else {
      HeadTail(s);
      var i, rest := TakeOut(t, s[0]);
      assert multiset(s[1..]) == multiset(s) - multiset{s[0]} == multiset(rest);
      MapOfPermutation(f, s[1..], rest);
      MapOfTakeOut(f, t, i);
      HeadTail(Map(f, s));
      assert Map(f, s)[1..] == Map(f, s[1..]);
    }
  }

  function Flatten<A>(lists: seq<seq<A>>): seq<A> {
    if lists == [] then [] else lists[0] + Flatten(lists[1..])
  }

  lemma {:induction false} FlattenOfConcat<A>(a: seq<seq<A>>, b: seq<seq<A>>)
    ensures Flatten(a + b) == Flatten(a) + Flatten(b)
  {
    if a == [] {
      assert a + b == b;
    } else {
      FlattenOfConcat(a[1..], b);
      assert (a + b)[1..] == a[1..] + b;
      assert Flatten(a + b) == a[0] + (Flatten(a[1..]) + Flatten(b));
    }
  }

  lemma {:induction false} FlattenOfOne<A>(list: seq<A>)
    ensures Flatten([list]) == list
  {
    assert [list][1..] == [];
    assert Flatten([list]) == list + Flatten([]);
  }

  lemma {:induction false} FlattenTakeOut<A>(lists: seq<seq<A>>, i: nat)
    requires i < |lists|
    ensures multiset(Flatten(lists)) == multiset(lists[i]) + multiset(Flatten(lists[..i] + lists[i + 1..]))
  {
    hide Flatten;
    var front, back := lists[..i], lists[i + 1..];
    FlattenOfConcat(front, back);
    FlattenOfConcat(front, [lists[i]] + back);
    FlattenOfConcat([lists[i]], back);
    FlattenOfOne(lists[i]);
    assert lists == front + ([lists[i]] + back);
  }

  lemma {:induction false} FlattenOfPermutation<A>(a: seq<seq<A>>, b: seq<seq<A>>)
    requires multiset(a) == multiset(b)
    ensures multiset(Flatten(a)) == multiset(Flatten(b))
    decreases a
  {
    if a == [] {
      assert |multiset(b)| == 0;
    } else {
      hide Flatten;
      HeadTail(a);
      var i, rest := TakeOut(b, a[0]);
      assert multiset(a[1..]) == multiset(a) - multiset{a[0]} == multiset(rest);
      FlattenOfPermutation(a[1..], rest);
      FlattenTakeOut(b, i);
      FlattenTakeOut(a, 0);
      assert a[..0] + a[1..] == a[1..];
    }
  }

  /** How many elements of a list `f` maps to `k`. */
  function Tally<A, K(==)>(f: A -> K, s: seq<A>, k: K): nat {
    multiset(Map(f, s))[k]
  }

  lemma {:induction false} TallySnoc<A, K>(f: A -> K, s: seq<A>, x: A, k: K)
    ensures Tally(f, s + [x], k) == Tally(f, s, k) + (if f(x) == k then 1 else 0)
  {
    assert Map(f, s + [x]) == Map(f, s) + [f(x)];
  }

  lemma {:induction false} TallyConcat<A, K>(f: A -> K, s: seq<A>, t: seq<A>, k: K)
    ensures Tally(f, s + t, k) == Tally(f, s, k) + Tally(f, t, k)
  {
    assert Map(f, s + t) == Map(f, s) + Map(f, t);
  }

  lemma {:induction false} TallyOne<A, K>(f: A -> K, x: A, k: K)
    ensures Tally(f, [x], k) == if f(x) == k then 1 else 0
    ensures Tally(f, [], k) == 0
  {
    assert Map(f, [x]) == [f(x)];
    assert Map(f, []) == [];
  }

  lemma {:induction false} TallyUpdate<A, K>(f: A -> K, s: seq<A>, i: nat, x: A, k: K)
    requires i < |s| && f(x) == f(s[i])
    ensures Tally(f, s[i := x], k) == Tally(f, s, k)
  {
    assert Map(f, s[i := x]) == Map(f, s);
  }
}
