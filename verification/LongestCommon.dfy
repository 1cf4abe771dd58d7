/** `_lcs_length` of backend/app/services/recipe_duplicate_scoring.py: the longest common subsequence, row by row. */
module LongestCommon {

  /** What is left of `a` when elements are left out. */
  predicate Subsequence<T(==)>(c: seq<T>, a: seq<T>) {
    if c == [] then true
    else if a == [] then false
    else
      || (c[|c| - 1] == a[|a| - 1] && Subsequence(c[..|c| - 1], a[..|a| - 1]))
      || Subsequence(c, a[..|a| - 1])
  }

  predicate CommonTo<T(==)>(c: seq<T>, a: seq<T>, b: seq<T>) {
    Subsequence(c, a) && Subsequence(c, b)
  }

  /** The recurrence. */
  function Length<T(==)>(a: seq<T>, b: seq<T>): nat
    decreases |a| + |b|
  {
    if a == [] || b == [] then 0
    else
      var a', b' := a[..|a| - 1], b[..|b| - 1];
      if a[|a| - 1] == b[|b| - 1] then Length(a', b') + 1
      else if Length(a', b) >= Length(a, b') then Length(a', b) else Length(a, b')
  }

  /** One row of the table after another, each from the one before. */
  method LcsLength<T(==)>(left: seq<T>, right: seq<T>) returns (length: nat)
    ensures length == Length(left, right)
  {
    var previous := seq(|right| + 1, _ => 0);
    for i := 0 to |left|
      invariant |previous| == |right| + 1
      invariant forall j :: 0 <= j <= |right| ==> previous[j] == Length(left[..i], right[..j])
    {
      var current: seq<nat> := [0];
      for j := 0 to |right|
        invariant |current| == j + 1
        invariant forall k :: 0 <= k <= j ==> current[k] == Length(left[..i + 1], right[..k])
      {
        Entry(left, right, i, j);
        if left[i] == right[j] {
          current := current + [previous[j] + 1];
        } else {
          current := current + [if previous[j + 1] >= current[j] then previous[j + 1] else current[j]];
        }
      }
      previous := current;
    }
    assert left[..|left|] == left && right[..|right|] == right;
    length := previous[|right|];
  }

  lemma Entry<T>(a: seq<T>, b: seq<T>, i: nat, j: nat)
    requires i < |a| && j < |b|
    ensures Length(a[..i + 1], b[..j + 1])
         == if a[i] == b[j] then Length(a[..i], b[..j]) + 1
            else if Length(a[..i], b[..j + 1]) >= Length(a[..i + 1], b[..j]) then Length(a[..i], b[..j + 1])
            else Length(a[..i + 1], b[..j])
  {
    assert a[..i + 1][..i] == a[..i] && b[..j + 1][..j] == b[..j];
  }

  lemma {:induction false} LeaveOut<T>(c: seq<T>, a: seq<T>)
    requires c != [] && a != [] && Subsequence(c, a)
    ensures Subsequence(c[..|c| - 1], a[..|a| - 1])
    decreases |a|
  {
    var a' := a[..|a| - 1];
    if !(c[|c| - 1] == a[|a| - 1] && Subsequence(c[..|c| - 1], a')) {
      ShorterToo(c, a');
    }
  }

  lemma {:induction false} ShorterToo<T>(c: seq<T>, a: seq<T>)
    requires c != [] && Subsequence(c, a)
    ensures Subsequence(c[..|c| - 1], a)
    decreases |a|
  {
    var c', a' := c[..|c| - 1], a[..|a| - 1];
    if c[|c| - 1] == a[|a| - 1] && Subsequence(c', a') {
      assert c' == [] || Subsequence(c', a);
    } else {
      ShorterToo(c, a');
    }
  }

  /** No common subsequence is longer. */
  lemma {:induction false} NoneIsLonger<T>(c: seq<T>, a: seq<T>, b: seq<T>)
    requires CommonTo(c, a, b)
    ensures |c| <= Length(a, b)
    decreases |a| + |b|
  {
    if c != [] {
      var a', b' := a[..|a| - 1], b[..|b| - 1];
      if a[|a| - 1] == b[|b| - 1] {
        LeaveOut(c, a);
        LeaveOut(c, b);
        NoneIsLonger(c[..|c| - 1], a', b');
      } else if Subsequence(c, a') {
        NoneIsLonger(c, a', b);
      } else {
        NoneIsLonger(c, a, b');
      }
    }
  }

  /** And some common subsequence has this length. */
  lemma {:induction false} SomeIsAsLong<T>(a: seq<T>, b: seq<T>) returns (c: seq<T>)
    ensures CommonTo(c, a, b) && |c| == Length(a, b)
    decreases |a| + |b|
  {
    if a == [] || b == [] { return []; }
    var a', b' := a[..|a| - 1], b[..|b| - 1];
    if a[|a| - 1] == b[|b| - 1] {
      c := SomeIsAsLong(a', b');
      c := c + [a[|a| - 1]];
      assert c[..|c| - 1] + [a[|a| - 1]] == c;
    } else if Length(a', b) >= Length(a, b') {
      c := SomeIsAsLong(a', b);
    } else {
      c := SomeIsAsLong(a, b');
    }
  }

  /** The length computed is that of the longest common subsequences. */
  lemma LengthIsLongest<T(!new)>(a: seq<T>, b: seq<T>)
    ensures exists c :: CommonTo(c, a, b) && |c| == Length(a, b)
    ensures forall c :: CommonTo(c, a, b) ==> |c| <= Length(a, b)
  {
    var c := SomeIsAsLong(a, b);
    forall c | CommonTo(c, a, b) ensures |c| <= Length(a, b) {
      NoneIsLonger(c, a, b);
    }
  }

  lemma LengthIsSymmetric<T>(a: seq<T>, b: seq<T>)
    ensures Length(a, b) == Length(b, a)
  {
    var c := SomeIsAsLong(a, b);
    NoneIsLonger(c, b, a);
    var d := SomeIsAsLong(b, a);
    NoneIsLonger(d, a, b);
  }

  lemma {:induction false} SubsequenceIsBounded<T>(c: seq<T>, a: seq<T>)
    requires Subsequence(c, a)
    ensures |c| <= |a| && (|c| == |a| ==> c == a)
    decreases |a|
  {
    if c != [] {
      var c', a' := c[..|c| - 1], a[..|a| - 1];
      assert c == c' + [c[|c| - 1]] && a == a' + [a[|a| - 1]];
      if c[|c| - 1] == a[|a| - 1] && Subsequence(c', a') {
        SubsequenceIsBounded(c', a');
      } else {
        SubsequenceIsBounded(c, a');
      }
    }
  }

  lemma {:induction false} WholeIsSubsequence<T>(a: seq<T>)
    ensures Subsequence(a, a)
    decreases |a|
  {
    if a != [] { WholeIsSubsequence(a[..|a| - 1]); }
  }

  /** It is the length of both exactly when they are one sequence. */
  lemma LengthIsBounded<T>(a: seq<T>, b: seq<T>)
    ensures Length(a, b) <= |a| && Length(a, b) <= |b|
    ensures Length(a, b) == |a| == |b| <==> a == b
  {
    var c := SomeIsAsLong(a, b);
    SubsequenceIsBounded(c, a);
    SubsequenceIsBounded(c, b);
    if a == b {
      WholeIsSubsequence(a);
      NoneIsLonger(a, a, b);
    }
  }
}
