/** How much two bags have in common: the size of the intersection of two counters. */
module Overlap {

  /** `sum((Counter(a) & Counter(b)).values())`. */
  function Common<T(==)>(a: seq<T>, b: seq<T>): nat {
    |multiset(a) * multiset(b)|
  }

  function Image<T, U>(f: T -> U, xs: seq<T>): (ys: seq<U>)
    ensures |ys| == |xs|
  {
    seq(|xs|, i requires 0 <= i < |xs| => f(xs[i]))
  }

  function Without<T(==)>(xs: seq<T>, x: T): (ys: seq<T>)
    requires x in xs
    ensures multiset(ys) + multiset{x} == multiset(xs)
    ensures forall y :: y in ys ==> y in xs
  {
    if xs[0] == x then
      assert xs == [x] + xs[1..];
      xs[1..]
    else
      assert xs == [xs[0]] + xs[1..];
      [xs[0]] + Without(xs[1..], x)
  }

  lemma CommonIsSymmetric<T>(a: seq<T>, b: seq<T>)
    ensures Common(a, b) == Common(b, a)
  {
    assert multiset(a) * multiset(b) == multiset(b) * multiset(a);
  }

  lemma CommonIsBounded<T>(a: seq<T>, b: seq<T>)
    ensures Common(a, b) <= |a| && Common(a, b) <= |b|
  {
    SizeGrows(multiset(a) * multiset(b), multiset(a));
    SizeGrows(multiset(a) * multiset(b), multiset(b));
  }

  lemma SizeGrows<T>(a: multiset<T>, b: multiset<T>)
    requires a <= b
    ensures |a| <= |b| && (|a| == |b| ==> a == b)
  {
    assert b == a + (b - a);
  }

  /** All of both is in common exactly when they are one bag. */
  lemma AllInCommon<T>(a: seq<T>, b: seq<T>)
    ensures Common(a, b) == |a| == |b| <==> multiset(a) == multiset(b)
  {
    if Common(a, b) == |a| == |b| {
      SizeGrows(multiset(a) * multiset(b), multiset(a));
      SizeGrows(multiset(a) * multiset(b), multiset(b));
    }
    if multiset(a) == multiset(b) {
      assert multiset(a) * multiset(b) == multiset(a);
      assert |a| == |multiset(a)| == |multiset(b)| == |b|;
    }
  }

  /** One more element is in common exactly when the other bag still has it. */
  lemma CommonSnoc<T>(a: seq<T>, x: T, b: seq<T>)
    ensures Common(a + [x], b) == if x in b then Common(a, Without(b, x)) + 1 else Common(a, b)
  {
    if x in b {
      var rest := Without(b, x);
      assert multiset(a + [x]) * multiset(b) == multiset(a) * multiset(rest) + multiset{x};
    } else {
      assert multiset(a + [x]) * multiset(b) == multiset(a) * multiset(b);
    }
  }

  lemma CommonGrows<T>(a: multiset<T>, b: multiset<T>, c: multiset<T>)
    requires a <= b
    ensures |a * c| <= |b * c|
  {
    SizeGrows(a * c, b * c);
  }

  lemma {:induction false} ImageOfWithout<T, U>(f: T -> U, xs: seq<T>, x: T)
    requires x in xs
    ensures multiset(Image(f, Without(xs, x))) + multiset{f(x)} == multiset(Image(f, xs))
  {
    assert xs == [xs[0]] + xs[1..];
    assert Image(f, xs) == [f(xs[0])] + Image(f, xs[1..]);
    if xs[0] != x {
      ImageOfWithout(f, xs[1..], x);
      assert Image(f, Without(xs, x)) == [f(xs[0])] + Image(f, Without(xs[1..], x));
    }
  }

  /** Elements in common have images in common, and no more when the images tell them apart. */
  lemma {:induction false} ImageOverlaps<T, U>(f: T -> U, a: seq<T>, b: seq<T>)
    ensures Common(a, b) <= Common(Image(f, a), Image(f, b))
    ensures (forall x, y :: x in a && y in b && f(x) == f(y) ==> x == y) ==>
              Common(a, b) == Common(Image(f, a), Image(f, b))
    decreases |a|
  {
    if a == [] {
      assert Common(a, b) == 0;
      assert Image(f, a) == [];
    } else {
      var n := |a| - 1;
      var rest, x := a[..n], a[n];
      assert a == rest + [x];
      assert Image(f, a) == Image(f, rest) + [f(x)];
      CommonSnoc(rest, x, b);
      CommonSnoc(Image(f, rest), f(x), Image(f, b));
      if x in b {
        ImageOverlaps(f, rest, Without(b, x));
        StepInBoth(f, rest, x, b);
      } else {
        ImageOverlaps(f, rest, b);
        StepInImage(f, rest, x, b);
      }
    }
  }

  lemma StepInBoth<T, U>(f: T -> U, rest: seq<T>, x: T, b: seq<T>)
    requires x in b
    ensures f(x) in Image(f, b)
    ensures Common(Image(f, rest), Without(Image(f, b), f(x))) == Common(Image(f, rest), Image(f, Without(b, x)))
  {
    var i :| 0 <= i < |b| && b[i] == x;
    assert Image(f, b)[i] == f(x);
    ImageOfWithout(f, b, x);
    var one, other := multiset(Without(Image(f, b), f(x))), multiset(Image(f, Without(b, x)));
    assert one == (one + multiset{f(x)}) - multiset{f(x)} == (other + multiset{f(x)}) - multiset{f(x)} == other;
  }

  lemma StepInImage<T, U>(f: T -> U, rest: seq<T>, x: T, b: seq<T>)
    requires x !in b
    ensures Common(Image(f, rest), Image(f, b)) <= Common(Image(f, rest + [x]), Image(f, b))
    ensures (forall v :: v in b && f(x) == f(v) ==> x == v) ==> f(x) !in Image(f, b)
  {
    assert Image(f, rest + [x]) == Image(f, rest) + [f(x)];
    CommonGrows(multiset(Image(f, rest)), multiset(Image(f, rest + [x])), multiset(Image(f, b)));
  }

  /** Replacing elements that are not in common by others never makes less common. */
  lemma {:induction false} AgreeingOverlaps<T>(a: seq<T>, c: seq<T>, b: seq<T>)
    requires |a| == |c| && forall i :: 0 <= i < |a| && a[i] in b ==> c[i] == a[i]
    ensures Common(a, b) <= Common(c, b)
    decreases |a|
  {
    if a != [] {
      var n := |a| - 1;
      assert a == a[..n] + [a[n]] && c == c[..n] + [c[n]];
      CommonSnoc(a[..n], a[n], b);
      CommonSnoc(c[..n], c[n], b);
      if a[n] in b {
        AgreeingOverlaps(a[..n], c[..n], Without(b, a[n]));
      } else {
        AgreeingOverlaps(a[..n], c[..n], b);
        CommonGrows(multiset(c[..n]), multiset(c), multiset(b));
      }
    }
  }
}
