/** Subsequences and order-preserving filters, used where a pool only ever loses members. */
module Subsequences {

  /** `a` is `b` with some entries left out. */
  predicate Sub<T(==)>(a: seq<T>, b: seq<T>) {
    if a == [] then true
    else if b == [] then false
    else if a[0] == b[0] then Sub(a[1..], b[1..])
    else Sub(a, b[1..])
  }

  function Keep<T(==)>(s: seq<T>, wanted: set<T>): seq<T> {
    if s == [] then []
    else if s[0] in wanted then [s[0]] + Keep(s[1..], wanted)
    else Keep(s[1..], wanted)
  }

  predicate Distinct<T(==)>(s: seq<T>) {
    forall i, j :: 0 <= i < j < |s| ==> s[i] != s[j]
  }

  lemma {:induction false} SubSelf<T>(a: seq<T>)
    ensures Sub(a, a)
  {
    if a != [] {
      SubSelf(a[1..]);
    }
  }

  lemma {:induction false} SubTail<T>(a: seq<T>, b: seq<T>)
    requires a != [] && Sub(a, b)
    ensures Sub(a[1..], b)
    decreases |b|, 1
  {
    if a[0] == b[0] {
      SubLonger(a[1..], b);
    } else {
      SubTail(a, b[1..]);
      SubLonger(a[1..], b);
    }
  }

  lemma {:induction false} SubLonger<T>(a: seq<T>, b: seq<T>)
    requires b != [] && Sub(a, b[1..])
    ensures Sub(a, b)
    decreases |b|, 0
  {
    if a != [] && a[0] == b[0] {
      SubTail(a, b[1..]);
    }
  }

  lemma {:induction false} SubTrans<T>(a: seq<T>, b: seq<T>, c: seq<T>)
    requires Sub(a, b) && Sub(b, c)
    ensures Sub(a, c)
    decreases |c|, |b|
  {
    if a != [] {
      if b[0] == c[0] {
        if a[0] == b[0] {
          SubTrans(a[1..], b[1..], c[1..]);
        } else {
          SubTrans(a, b[1..], c[1..]);
        }
      } else {
        SubTrans(a, b, c[1..]);
        SubLonger(a, c);
      }
    }
  }

  lemma {:induction false} SubLength<T>(a: seq<T>, b: seq<T>)
    requires Sub(a, b)
    ensures |a| <= |b|
    ensures |a| == |b| ==> a == b
    ensures forall x :: x in a ==> x in b
    decreases |b|
  {
    if a != [] {
      if a[0] == b[0] {
        SubLength(a[1..], b[1..]);
        assert a == [a[0]] + a[1..] && b == [b[0]] + b[1..];
      } else {
        SubLength(a, b[1..]);
      }
    }
  }

  lemma {:induction false} KeepSub<T>(s: seq<T>, wanted: set<T>)
    ensures Sub(Keep(s, wanted), s)
    ensures forall x :: x in Keep(s, wanted) <==> x in s && x in wanted
  {
    if s != [] {
      KeepSub(s[1..], wanted);
      if s[0] !in wanted {
        SubLonger(Keep(s, wanted), s);
      }
    }
  }

  /** Filtering keeps subsequences, and a narrower filter keeps a subsequence of a wider one. */
  lemma {:induction false} KeepMono<T>(a: seq<T>, b: seq<T>, narrow: set<T>, wide: set<T>)
    requires Sub(a, b) && forall x :: x in a && x in narrow ==> x in wide
    ensures Sub(Keep(a, narrow), Keep(b, wide))
    decreases |b|
  {
    if a != [] {
      if a[0] == b[0] {
        KeepMono(a[1..], b[1..], narrow, wide);
        if a[0] in wide && a[0] !in narrow {
          SubLonger(Keep(a, narrow), Keep(b, wide));
        }
      } else {
        KeepMono(a, b[1..], narrow, wide);
        if b[0] in wide {
          SubLonger(Keep(a, narrow), Keep(b, wide));
        }
      }
    }
  }

  lemma {:induction false} KeepAll<T>(s: seq<T>, wanted: set<T>)
    requires forall x :: x in s ==> x in wanted
    ensures Keep(s, wanted) == s
  {
    if s != [] {
      KeepAll(s[1..], wanted);
    }
  }

  lemma {:induction false} SubDistinct<T>(a: seq<T>, b: seq<T>)
    requires Sub(a, b) && Distinct(b)
    ensures Distinct(a)
    decreases |b|
  {
    if a != [] {
      if a[0] == b[0] {
        SubDistinct(a[1..], b[1..]);
        SubLength(a[1..], b[1..]);
        assert forall j :: 0 < j < |a| ==> a[j] in a[1..];
        forall i, j | 0 <= i < j < |a|
          ensures a[i] != a[j]
        {
          if i == 0 {
            assert a[j] in a[1..] && a[j] in b[1..];
          } else {
            assert a[i] == a[1..][i - 1] && a[j] == a[1..][j - 1];
          }
        }
      } else {
        SubDistinct(a, b[1..]);
      }
    }
  }
}
