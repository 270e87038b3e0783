/**
 Ascending sequences of sets, the best few elements of a set, and the order of strings.
 An order is passed as the predicate `less`; it only needs to be total on the set at hand.
 */
module Ordering {

  ghost predicate StrictOrder<T(!new)>(less: (T, T) -> bool) {
    && (forall x {:trigger less(x, x)} :: !less(x, x))
    && (forall x, y, z {:trigger less(x, y), less(y, z)} :: less(x, y) && less(y, z) ==> less(x, z))
  }

  ghost predicate TotalOn<T>(less: (T, T) -> bool, s: set<T>) {
    forall x, y :: x in s && y in s && x != y ==> less(x, y) || less(y, x)
  }

  ghost predicate Ascending<T>(less: (T, T) -> bool, s: seq<T>) {
    forall i, j :: 0 <= i < j < |s| ==> less(s[i], s[j])
  }

  function ToSet<T(==)>(s: seq<T>): set<T> {
    set x | x in s
  }

  /** The position at which an element belongs in an ascending sequence. */
  method Position<T(!new)>(less: (T, T) -> bool, s: seq<T>, x: T) returns (k: nat)
    requires StrictOrder(less) && Ascending(less, s)
    ensures k <= |s| && (forall i :: 0 <= i < k ==> less(s[i], x)) && (k < |s| ==> !less(s[k], x))
  {
    k := 0;
    while k < |s| && less(s[k], x)
      invariant k <= |s| && forall i :: 0 <= i < k ==> less(s[i], x)
    {
      k := k + 1;
    }
  }

  /** Adding an element to an ascending sequence and sorting it. */
  method Insert<T(==,!new)>(less: (T, T) -> bool, s: seq<T>, x: T) returns (r: seq<T>)
    requires StrictOrder(less) && Ascending(less, s) && x !in s && TotalOn(less, ToSet(s) + {x})
    ensures Ascending(less, r) && ToSet(r) == ToSet(s) + {x} && |r| == |s| + 1
  {
    var k := Position(less, s, x);
    r := s[..k] + [x] + s[k..];
    forall i | k <= i < |s| ensures less(x, s[i]) {
      assert s[k] in ToSet(s) && less(x, s[k]);
    }
    assert s == s[..k] + s[k..];
  }

  /** Sorting a set. */
  method Sort<T(==,!new)>(less: (T, T) -> bool, s: set<T>) returns (r: seq<T>)
    requires StrictOrder(less) && TotalOn(less, s)
    ensures Ascending(less, r) && ToSet(r) == s && |r| == |s|
  {
    r := [];
    var rest := s;
    while rest != {}
      invariant rest <= s && Ascending(less, r) && ToSet(r) == s - rest && |r| == |s| - |rest|
      decreases |rest|
    {
      var x :| x in rest;
      r := Insert(less, r, x);
      rest := rest - {x};
    }
  }

  lemma HeadIn<T>(s: seq<T>)
    requires s != []
    ensures s[0] in ToSet(s)
  {
  }

  /** A set has at most one ascending sequence. */
  lemma {:induction false} AscendingUnique<T(!new)>(less: (T, T) -> bool, s: seq<T>, t: seq<T>)
    requires StrictOrder(less) && Ascending(less, s) && Ascending(less, t) && ToSet(s) == ToSet(t)
    ensures s == t
  {
    if s == [] {
      if t != [] { HeadIn(t); }
    } else if t == [] {
      HeadIn(s);
    } else {
      assert s[0] in ToSet(t) && t[0] in ToSet(s);
      var i :| 0 <= i < |t| && t[i] == s[0];
      var j :| 0 <= j < |s| && s[j] == t[0];
      assert s[0] == t[0];
      forall x ensures x in ToSet(s[1..]) <==> x in ToSet(t[1..]) {
        assert x in s[1..] <==> x in ToSet(s) && x != s[0] by { if x in s[1..] { var k :| 1 <= k < |s| && s[k] == x; } }
        assert x in t[1..] <==> x in ToSet(t) && x != t[0] by { if x in t[1..] { var k :| 1 <= k < |t| && t[k] == x; } }
      }
      AscendingUnique(less, s[1..], t[1..]);
    }
  }

  lemma {:induction false} AscendingExists<T(!new)>(less: (T, T) -> bool, s: set<T>)
    requires StrictOrder(less) && TotalOn(less, s)
    ensures exists r :: Ascending(less, r) && ToSet(r) == s
  {
    if s == {} {
      assert Ascending<T>(less, []) && ToSet<T>([]) == {};
    } else {
      var m := Least(less, s);
      AscendingExists(less, s - {m});
      var r :| Ascending(less, r) && ToSet(r) == s - {m};
      forall i | 0 <= i < |r| ensures less(m, r[i]) { assert r[i] in ToSet(r); }
      assert Ascending(less, [m] + r);
      assert ToSet([m] + r) == {m} + ToSet(r) == s;
    }
  }

  lemma {:induction false} Least<T(!new)>(less: (T, T) -> bool, s: set<T>) returns (m: T)
    requires StrictOrder(less) && TotalOn(less, s) && s != {}
    ensures m in s && forall x :: x in s && x != m ==> less(m, x)
    decreases |s|
  {
    m :| m in s;
    if s != {m} {
      var rest := s - {m};
      assert s == rest + {m};
      var n := Least(less, rest);
      assert n in s && n != m && (less(n, m) || less(m, n));
      assert forall x :: x in s && x != m && x != n ==> x in rest && less(n, x);
      if less(n, m) { m := n; }
    }
  }

  /** The ascending sequence of a set. */
  ghost function Ascend<T(!new)>(less: (T, T) -> bool, s: set<T>): (r: seq<T>)
    requires StrictOrder(less) && TotalOn(less, s)
    ensures Ascending(less, r) && ToSet(r) == s
  {
    AscendingExists(less, s);
    var r :| Ascending(less, r) && ToSet(r) == s;
    r
  }

  lemma {:induction false} AscendingSize<T(!new)>(less: (T, T) -> bool, s: seq<T>)
    requires StrictOrder(less) && Ascending(less, s)
    ensures |ToSet(s)| == |s|
  {
    if s != [] {
      var n := |s| - 1;
      AscendingSize(less, s[..n]);
      assert s == s[..n] + [s[n]];
      assert ToSet(s) == ToSet(s[..n]) + {s[n]};
    }
  }

  // ---- The best few ----

  /** `best` are the `n` least elements of `s`, or all of them. */
  ghost predicate IsBest<T>(less: (T, T) -> bool, n: nat, s: set<T>, best: set<T>) {
    && best <= s && |best| == (if |s| < n then |s| else n)
    && forall x, y :: x in best && y in s && y !in best ==> less(x, y)
  }

  lemma BestUnique<T(!new)>(less: (T, T) -> bool, n: nat, s: set<T>, a: set<T>, b: set<T>)
    requires StrictOrder(less) && IsBest(less, n, s, a) && IsBest(less, n, s, b)
    ensures a == b
  {
    if a != b {
      if a <= b { Proper(a, b); } else if b <= a { Proper(b, a); } else {
        var x :| x in a && x !in b;
        var y :| y in b && y !in a;
        assert false;
      }
    }
  }

  lemma Proper<T>(a: set<T>, b: set<T>)
    requires a <= b && a != b
    ensures |a| < |b|
  {
    var x :| x in b && x !in a;
    assert b == (b - a) + a && (b - a) * a == {};
    assert |b| == |b - a| + |a|;
    assert x in b - a;
  }

  lemma SubsetSize<T>(a: set<T>, b: set<T>)
    requires a <= b
    ensures |a| <= |b|
  {
    if a != b { Proper(a, b); }
  }

  /** One more element, while there is room for it. */
  lemma BestGrows<T(!new)>(less: (T, T) -> bool, n: nat, s: set<T>, best: set<T>, x: T)
    requires IsBest(less, n, s, best) && |best| < n && x !in s
    ensures IsBest(less, n, s + {x}, best + {x})
  {
    if best != s { Proper(best, s); }
  }

  /** One more element, and the worst is dropped: a bounded buffer keeps the best of the stream. */
  lemma BestDrops<T(!new)>(less: (T, T) -> bool, n: nat, s: set<T>, best: set<T>, x: T, worst: T)
    requires StrictOrder(less) && TotalOn(less, s + {x}) && IsBest(less, n, s, best) && |best| == n && x !in s
    requires worst in best + {x} && forall y :: y in best + {x} && y != worst ==> less(y, worst)
    ensures IsBest(less, n, s + {x}, best + {x} - {worst})
  {
    SubsetSize(best, s);
    var kept := best + {x} - {worst};
    forall y, z | y in kept && z in s + {x} && z !in kept ensures less(y, z) {
      if z != worst {
        assert z in s && z !in best;
        if y == x { assert worst in best && less(x, worst) && less(worst, z); }
      }
    }
  }

  /** Elements that are already beaten by a full buffer change nothing. */
  lemma BestWithout<T(!new)>(less: (T, T) -> bool, n: nat, s: set<T>, best: set<T>, y: T)
    requires IsBest(less, n, s, best) && y in s && y !in best
    ensures IsBest(less, n, s - {y}, best)
  {
    Proper(best, s);
    SubsetSize(best, s - {y});
  }

  /** An element is replaced by a better one. */
  lemma BestImproves<T(!new)>(less: (T, T) -> bool, n: nat, s: set<T>, best: set<T>, worse: T, x: T)
    requires StrictOrder(less) && IsBest(less, n, s, best) && worse in best && x !in s && less(x, worse)
    ensures IsBest(less, n, s - {worse} + {x}, best - {worse} + {x})
  {
  }

  /** A new element that is beaten by one outside the full buffer is dropped at once. */
  lemma BestStays<T(!new)>(less: (T, T) -> bool, n: nat, s: set<T>, best: set<T>, beater: T, x: T, worst: T)
    requires StrictOrder(less) && IsBest(less, n, s, best) && beater in s && beater !in best && less(beater, x) && x !in s
    requires worst in best + {x} && forall y :: y in best + {x} && y != worst ==> less(y, worst)
    ensures best + {x} - {worst} == best
  {
    assert forall y :: y in best ==> less(y, beater) && less(y, x);
    assert worst == x;
  }

  /** Push, sort, and pop when there are too many. */
  method PushBounded<T(==,!new)>(less: (T, T) -> bool, n: nat, ghost s: set<T>, buffer: seq<T>, x: T) returns (r: seq<T>)
    requires n > 0 && StrictOrder(less) && TotalOn(less, s + {x}) && x !in s
    requires Ascending(less, buffer) && IsBest(less, n, s, ToSet(buffer)) && |buffer| <= n
    ensures Ascending(less, r) && IsBest(less, n, s + {x}, ToSet(r)) && |r| <= n
  {
    AscendingSize(less, buffer);
    assert x !in ToSet(buffer);
    r := Insert(less, buffer, x);
    if |r| > n {
      LastIsWorst(less, r);
      BestDrops(less, n, s, ToSet(buffer), x, r[n]);
      r := r[..n];
    } else {
      BestGrows(less, n, s, ToSet(buffer), x);
    }
  }

  lemma LastIsWorst<T(!new)>(less: (T, T) -> bool, s: seq<T>)
    requires StrictOrder(less) && Ascending(less, s) && s != []
    ensures var n := |s| - 1;
            s[n] in ToSet(s) && ToSet(s[..n]) == ToSet(s) - {s[n]} && forall y :: y in ToSet(s) && y != s[n] ==> less(y, s[n])
  {
    var n := |s| - 1;
    assert s == s[..n] + [s[n]];
    forall y | y in s[..n] ensures y != s[n] {
      var i :| 0 <= i < n && s[i] == y;
      assert less(s[i], s[n]);
    }
  }

  // ---- Strings ----

  predicate Less(a: string, b: string) {
    b != [] && (a == [] || a[0] < b[0] || (a[0] == b[0] && Less(a[1..], b[1..])))
  }

  lemma {:induction false} LessTransitive(a: string, b: string, c: string)
    requires Less(a, b) && Less(b, c)
    ensures Less(a, c)
  {
    if a != [] && a[0] == b[0] == c[0] { LessTransitive(a[1..], b[1..], c[1..]); }
  }

  lemma {:induction false} LessIrreflexive(a: string)
    ensures !Less(a, a)
  {
    if a != [] { LessIrreflexive(a[1..]); }
  }

  lemma {:induction false} LessTotal(a: string, b: string)
    ensures a == b || Less(a, b) || Less(b, a)
  {
    if a != [] && b != [] && a[0] == b[0] {
      LessTotal(a[1..], b[1..]);
      assert a == [a[0]] + a[1..] && b == [b[0]] + b[1..];
    }
  }

  lemma StringsOrdered()
    ensures StrictOrder(Less)
  {
    forall a ensures !Less(a, a) { LessIrreflexive(a); }
    forall a, b, c | Less(a, b) && Less(b, c) ensures Less(a, c) { LessTransitive(a, b, c); }
  }

  /** Sorting strings. */
  method SortStrings(s: set<string>) returns (r: seq<string>)
    ensures Ascending(Less, r) && ToSet(r) == s && |r| == |s|
  {
    StringsOrdered();
    forall a, b | a in s && b in s && a != b ensures Less(a, b) || Less(b, a) { LessTotal(a, b); }
    r := Sort(Less, s);
  }

  /** Strings with different prefixes are ordered as their prefixes. */
  lemma {:induction false} LessByPrefix(a: string, b: string, n: nat)
    requires n <= |a| && n <= |b| && Less(a[..n], b[..n])
    ensures Less(a, b)
  {
    var p, q := a[..n], b[..n];
    if p != [] && !(p[0] < q[0]) {
      assert p[1..] == a[1..][..n - 1] && q[1..] == b[1..][..n - 1];
      LessByPrefix(a[1..], b[1..], n - 1);
    }
  }
}
