/**
 The order Python's `sorted` puts strings in, and sorting of a finite set by a total order.
 */
module Ordering {
  /** Lexicographic order on strings. */
  predicate NameLe(a: string, b: string) {
    a == [] || (b != [] && (a[0] < b[0] || (a[0] == b[0] && NameLe(a[1..], b[1..]))))
  }

  /** Two names first differ at a place, where the first has the smaller character. */
  predicate SmallerAt(a: string, b: string, i: nat) {
    i < |a| && i < |b| && a[..i] == b[..i] && a[i] < b[i]
  }

  /** One name comes before another exactly if it is a prefix of it, or has the smaller character where they first
      differ. */
  lemma {:induction false} NameLeIff(a: string, b: string)
    ensures NameLe(a, b) <==> a <= b || exists i: nat :: SmallerAt(a, b, i)
  {
    if a == [] {
    } else if b == [] {
      assert !(a <= b);
    } else if a[0] != b[0] {
      HeadsDiffer(a, b);
    } else {
      NameLeIff(a[1..], b[1..]);
      HeadsAgree(a, b);
    }
  }

  lemma HeadsDiffer(a: string, b: string)
    requires a != [] && b != [] && a[0] != b[0]
    ensures !(a <= b) && (SmallerAt(a, b, 0) <==> a[0] < b[0]) && forall i: nat :: SmallerAt(a, b, i) ==> i == 0
  {
    forall i: nat | 0 < i <= |a| && i <= |b| ensures a[..i] != b[..i] {
      assert a[..i][0] == a[0] && b[..i][0] == b[0];
    }
  }

  lemma HeadsAgree(a: string, b: string)
    requires a != [] && b != [] && a[0] == b[0]
    ensures a <= b <==> a[1..] <= b[1..]
    ensures (exists i: nat :: SmallerAt(a, b, i)) <==> exists i: nat :: SmallerAt(a[1..], b[1..], i)
  {
    assert a == [a[0]] + a[1..] && b == [b[0]] + b[1..];
    if i: nat :| SmallerAt(a, b, i) {
      assert i > 0;
      var k: nat := i - 1;
      AgreeAt(a, b, k);
      assert SmallerAt(a[1..], b[1..], k);
    }
    if i: nat :| SmallerAt(a[1..], b[1..], i) {
      AgreeAt(a, b, i);
      assert SmallerAt(a, b, i + 1);
    }
  }

  lemma AgreeAt(a: string, b: string, i: nat)
    requires a != [] && b != [] && a[0] == b[0]
    ensures SmallerAt(a, b, i + 1) <==> SmallerAt(a[1..], b[1..], i)
  {
    if i < |a[1..]| && i < |b[1..]| {
      assert a[..i + 1] == [a[0]] + a[1..][..i] && b[..i + 1] == [b[0]] + b[1..][..i];
      assert a[1..][..i] == a[..i + 1][1..] && b[1..][..i] == b[..i + 1][1..];
    }
  }

  ghost predicate TotalOrder<T(!new)>(le: (T, T) -> bool) {
    && (forall a, b :: le(a, b) || le(b, a))
    && (forall a, b :: le(a, b) && le(b, a) ==> a == b)
    && (forall a, b, c :: le(a, b) && le(b, c) ==> le(a, c))
  }

  ghost predicate SortedBy<T>(le: (T, T) -> bool, s: seq<T>) {
    forall i, j :: 0 <= i < j < |s| ==> le(s[i], s[j]) && s[i] != s[j]
  }

  lemma {:induction false} NameLeTransitive(a: string, b: string, c: string)
    requires NameLe(a, b) && NameLe(b, c)
    ensures NameLe(a, c)
  {
    if a != [] && a[0] == b[0] == c[0] {
      NameLeTransitive(a[1..], b[1..], c[1..]);
    }
  }

  lemma {:induction false} NameLeAntisymmetric(a: string, b: string)
    requires NameLe(a, b) && NameLe(b, a)
    ensures a == b
  {
    if a == [] {
    } else {
      NameLeAntisymmetric(a[1..], b[1..]);
      assert a == [a[0]] + a[1..] && b == [b[0]] + b[1..];
    }
  }

  lemma {:induction false} NameLeConnected(a: string, b: string)
    ensures NameLe(a, b) || NameLe(b, a)
  {
    if a != [] && b != [] && a[0] == b[0] {
      NameLeConnected(a[1..], b[1..]);
    }
  }

  lemma NamesAreOrdered()
    ensures TotalOrder(NameLe)
  {
    forall a, b ensures NameLe(a, b) || NameLe(b, a) {
      NameLeConnected(a, b);
    }
    forall a, b | NameLe(a, b) && NameLe(b, a) ensures a == b {
      NameLeAntisymmetric(a, b);
    }
    forall a, b, c | NameLe(a, b) && NameLe(b, c) ensures NameLe(a, c) {
      NameLeTransitive(a, b, c);
    }
  }

  ghost predicate IsLeast<T>(le: (T, T) -> bool, s: set<T>, m: T) {
    m in s && forall x :: x in s ==> le(m, x)
  }

  /** A non-empty finite set has a least element. */
  lemma {:induction false} LeastExists<T(!new)>(le: (T, T) -> bool, s: set<T>)
    requires TotalOrder(le) && s != {}
    ensures exists m :: IsLeast(le, s, m)
    decreases |s|
  {
    var a :| a in s;
    if s == {a} {
      assert IsLeast(le, s, a);
    } else {
      var rest := s - {a};
      LeastExists(le, rest);
      var m :| IsLeast(le, rest, m);
      assert forall x :: x in s ==> x == a || x in rest;
      assert IsLeast(le, s, if le(m, a) then m else a);
    }
  }

  /** The elements of a set in ascending order. */
  function Sorted<T(==, !new)>(le: (T, T) -> bool, s: set<T>): (r: seq<T>)
    requires TotalOrder(le)
    ensures SortedBy(le, r)
    ensures |r| == |s| && forall x :: x in r <==> x in s
    decreases |s|
  {
    if s == {} then []
    else
      LeastExists(le, s);
      assert exists m :: m in s && forall x :: x in s ==> le(m, x) by {
        var m :| IsLeast(le, s, m);
      }
      var m :| m in s && forall x :: x in s ==> le(m, x);
      [m] + Sorted(le, s - {m})
  }
}
