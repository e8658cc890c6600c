/** Stable insertion sort by any order, and why its result is the only one. */
module Sorting {
  /** Puts `x` right before the first element it goes before. */
  function Insert<T>(x: T, s: seq<T>, before: (T, T) -> bool): (r: seq<T>)
    ensures |r| == |s| + 1
    ensures multiset(r) == multiset(s) + multiset{x}
  {
    if s == [] || before(x, s[0]) then [x] + s
    else
      assert s == [s[0]] + s[1..];
      [s[0]] + Insert(x, s[1..], before)
  }

  /** Elements of equal rank keep their places. */
  function Sort<T>(s: seq<T>, before: (T, T) -> bool): (r: seq<T>)
    ensures |r| == |s|
    ensures multiset(r) == multiset(s)
  {
    if s == [] then []
    else
      assert s == s[..|s| - 1] + [s[|s| - 1]];
      Insert(s[|s| - 1], Sort(s[..|s| - 1], before), before)
  }

  /** Nothing goes before itself or both ways round, and being of no later rank is transitive. */
  ghost predicate Ranks<T(!new)>(before: (T, T) -> bool) {
    && (forall a, b :: before(a, b) ==> !before(b, a))
    && (forall a, b, c :: before(c, a) ==> before(b, a) || before(c, b))
  }

  /** No element goes before an earlier one. */
  predicate Ascending<T>(s: seq<T>, before: (T, T) -> bool) {
    forall i, j :: 0 <= i < j < |s| ==> !before(s[j], s[i])
  }

  /** Every element goes before all later ones. */
  predicate Strict<T>(s: seq<T>, before: (T, T) -> bool) {
    forall i, j :: 0 <= i < j < |s| ==> before(s[i], s[j])
  }

  lemma SameMembers<T>(a: seq<T>, b: seq<T>)
    requires multiset(a) == multiset(b)
    ensures |a| == |b| && forall x :: x in a <==> x in b
  {
    assert |multiset(a)| == |multiset(b)|;
    forall x ensures x in a <==> x in b { assert x in multiset(a) <==> x in multiset(b); }
  }

  lemma {:induction false} InsertAscends<T(!new)>(x: T, s: seq<T>, before: (T, T) -> bool)
    requires Ranks(before) && Ascending(s, before)
    ensures Ascending(Insert(x, s, before), before)
  {
    if s != [] {
      if before(x, s[0]) {
        forall i | 0 <= i < |s| ensures !before(s[i], x) { assert !before(s[i], s[0]) || i == 0; }
      } else {
        var rest := Insert(x, s[1..], before);
        InsertAscends(x, s[1..], before);
        forall i | 0 <= i < |rest| ensures !before(rest[i], s[0]) {
          assert rest[i] in multiset(rest);
          assert rest[i] == x || rest[i] in s[1..];
        }
      }
    }
  }

  lemma {:induction false} SortAscends<T(!new)>(s: seq<T>, before: (T, T) -> bool)
    requires Ranks(before)
    ensures Ascending(Sort(s, before), before)
  {
    hide Ranks, Ascending;
    if s == [] {
      EmptyAscends(before);
    } else {
      SortAscends(s[..|s| - 1], before);
      InsertAscends(s[|s| - 1], Sort(s[..|s| - 1], before), before);
    }
  }

  lemma EmptyAscends<T>(before: (T, T) -> bool)
    ensures Ascending([], before)
  {
  }

  /** A strictly ordered sequence is determined by its members. */
  lemma {:induction false} StrictIsUnique<T(!new)>(a: seq<T>, b: seq<T>, before: (T, T) -> bool)
    requires Ranks(before) && Strict(a, before) && Strict(b, before)
    requires forall x :: x in a <==> x in b
    ensures a == b
  {
    EmptyTogether(a, b);
    if a != [] {
      SameHead(a, b, before);
      forall x ensures x in a[1..] <==> x in b[1..] {
        TailMembers(a, x, before);
        TailMembers(b, x, before);
      }
      StrictIsUnique(a[1..], b[1..], before);
      assert a == [a[0]] + a[1..] && b == [b[0]] + b[1..];
    }
  }

  lemma EmptyTogether<T>(a: seq<T>, b: seq<T>)
    requires forall x :: x in a <==> x in b
    ensures a == [] <==> b == []
  {
    if a != [] { assert a[0] in b; }
    if b != [] { assert b[0] in a; }
  }

  lemma SameHead<T(!new)>(a: seq<T>, b: seq<T>, before: (T, T) -> bool)
    requires Ranks(before) && Strict(a, before) && Strict(b, before)
    requires a != [] && b != [] && a[0] in b && b[0] in a
    ensures a[0] == b[0]
  {
    HeadIsFirst(a, b[0], before);
    HeadIsFirst(b, a[0], before);
  }

  lemma HeadIsFirst<T>(s: seq<T>, x: T, before: (T, T) -> bool)
    requires Strict(s, before) && x in s
    ensures x == s[0] || before(s[0], x)
  {
  }

  lemma TailMembers<T(!new)>(s: seq<T>, x: T, before: (T, T) -> bool)
    requires Ranks(before) && s != [] && Strict(s, before)
    ensures x in s[1..] <==> x in s && x != s[0]
  {
    if x in s[1..] {
      var i :| 0 <= i < |s[1..]| && s[1..][i] == x;
      assert s[i + 1] == x && before(s[0], x);
    }
  }

  // ------------------------------------------------------------------- distinct keys

  predicate DistinctKeys<T, K(==)>(s: seq<T>, key: T -> K) {
    forall i, j :: 0 <= i < j < |s| ==> key(s[i]) != key(s[j])
  }

  lemma {:induction false} CountOnce<T, K>(s: seq<T>, x: T, key: T -> K)
    requires DistinctKeys(s, key)
    ensures multiset(s)[x] <= 1
  {
    if s != [] {
      var init, last := s[..|s| - 1], s[|s| - 1];
      CountOnce(init, x, key);
      assert s == init + [last];
      forall i | 0 <= i < |init| ensures init[i] != last { assert key(s[i]) != key(s[|s| - 1]); }
      assert last !in init;
    }
  }

  lemma CountTwice<T>(s: seq<T>, i: nat, j: nat)
    requires i < j < |s| && s[i] == s[j]
    ensures multiset(s)[s[i]] >= 2
  {
    assert s == s[..j] + [s[j]] + s[j + 1..];
    assert s[i] in s[..j];
    assert multiset(s) == multiset(s[..j]) + multiset{s[j]} + multiset(s[j + 1..]);
  }

  /** Different keys stay different in any order. */
  lemma PermutationKeepsKeys<T, K>(a: seq<T>, b: seq<T>, key: T -> K)
    requires DistinctKeys(a, key) && multiset(a) == multiset(b)
    ensures DistinctKeys(b, key)
  {
    SameMembers(a, b);
    forall i, j | 0 <= i < j < |b| ensures key(b[i]) != key(b[j]) {
      CountOnce(a, b[i], key);
      if b[i] == b[j] { CountTwice(b, i, j); }
      assert b[i] in a && b[j] in a;
    }
  }

  /** Sorted elements with different keys, where unequal rank decides, are strictly ordered. */
  lemma SortIsStrict<T(!new), K>(s: seq<T>, before: (T, T) -> bool, key: T -> K)
    requires Ranks(before) && DistinctKeys(s, key)
    requires forall a, b :: key(a) != key(b) ==> before(a, b) || before(b, a)
    ensures Strict(Sort(s, before), before)
  {
    SortAscends(s, before);
    PermutationKeepsKeys(s, Sort(s, before), key);
    var r := Sort(s, before);
    forall i, j | 0 <= i < j < |r| ensures before(r[i], r[j]) { assert !before(r[j], r[i]) && key(r[i]) != key(r[j]); }
  }

  // ----------------------------------------------------------------------- stability

  /** `a` stands somewhere before `b`. */
  ghost predicate ListedBefore<T>(s: seq<T>, a: T, b: T) {
    exists i, j :: 0 <= i < j < |s| && s[i] == a && s[j] == b
  }

  /** Every two elements of `r` are in the order of their ranks or, at equal rank, in that of `s`. */
  ghost predicate Stable<T>(s: seq<T>, r: seq<T>, before: (T, T) -> bool) {
    forall i, j :: 0 <= i < j < |r| ==> before(r[i], r[j]) || (!before(r[j], r[i]) && ListedBefore(s, r[i], r[j]))
  }

  lemma ListedLonger<T>(s: seq<T>, x: T, a: T, b: T)
    ensures ListedBefore(s, a, b) ==> ListedBefore(s + [x], a, b)
    ensures a in s ==> ListedBefore(s + [x], a, x)
  {
    var t := s + [x];
    if i, j :| 0 <= i < j < |s| && s[i] == a && s[j] == b { assert t[i] == a && t[j] == b; }
    if k :| 0 <= k < |s| && s[k] == a { assert t[k] == a && t[|s|] == x; }
  }

  lemma InsertMembers<T>(x: T, s: seq<T>, before: (T, T) -> bool, y: T)
    ensures y in Insert(x, s, before) <==> y == x || y in s
  {
    var r := Insert(x, s, before);
    assert y in r <==> y in multiset(r);
    assert y in s <==> y in multiset(s);
  }

  lemma {:induction false} InsertIsStable<T(!new)>(x: T, r: seq<T>, before: (T, T) -> bool, s: seq<T>)
    requires Ranks(before) && Stable(s, r, before) && Ascending(r, before) && forall y :: y in r ==> y in s
    ensures Stable(s + [x], Insert(x, r, before), before)
    decreases |r|
  {
    var t := Insert(x, r, before);
    if r == [] || before(x, r[0]) {
      forall i, j | 0 <= i < j < |t| ensures before(t[i], t[j]) || (!before(t[j], t[i]) && ListedBefore(s + [x], t[i], t[j])) {
        if i == 0 {
          assert j == 1 || !before(r[j - 1], r[0]);
        } else {
          assert t[i] == r[i - 1] && t[j] == r[j - 1];
          ListedLonger(s, x, r[i - 1], r[j - 1]);
        }
      }
    } else {
      InsertIsStable(x, r[1..], before, s);
      forall i, j | 0 <= i < j < |t| ensures before(t[i], t[j]) || (!before(t[j], t[i]) && ListedBefore(s + [x], t[i], t[j])) {
        if i > 0 {
          assert t[i] == Insert(x, r[1..], before)[i - 1] && t[j] == Insert(x, r[1..], before)[j - 1];
        } else {
          HeadStaysFirst(x, r, before, s, t[j]);
        }
      }
    }
  }

  lemma HeadStaysFirst<T(!new)>(x: T, r: seq<T>, before: (T, T) -> bool, s: seq<T>, y: T)
    requires Ranks(before) && Stable(s, r, before) && r != [] && !before(x, r[0]) && forall z :: z in r ==> z in s
    requires y in Insert(x, r[1..], before)
    ensures before(r[0], y) || (!before(y, r[0]) && ListedBefore(s + [x], r[0], y))
  {
    InsertMembers(x, r[1..], before, y);
    assert r[0] in r;
    if y == x {
      ListedLonger(s, x, r[0], x);
    } else {
      var k :| 0 <= k < |r[1..]| && r[1..][k] == y;
      assert r[k + 1] == y;
      ListedLonger(s, x, r[0], y);
    }
  }

  /** Sorting is stable. */
  lemma {:induction false} SortIsStable<T(!new)>(s: seq<T>, before: (T, T) -> bool)
    requires Ranks(before)
    ensures Stable(s, Sort(s, before), before)
  {
    if s != [] {
      SortIsStable(s[..|s| - 1], before);
      StableStep(s, before);
    }
  }

  lemma StableStep<T(!new)>(s: seq<T>, before: (T, T) -> bool)
    requires Ranks(before) && s != [] && Stable(s[..|s| - 1], Sort(s[..|s| - 1], before), before)
    ensures Stable(s, Sort(s, before), before)
  {
    hide *;
    var init, x := s[..|s| - 1], s[|s| - 1];
    SortAscends(init, before);
    SameMembers(Sort(init, before), init);
    InsertIsStable(x, Sort(init, before), before, init);
    SortUnfolds(s, before);
  }

  lemma SortUnfolds<T>(s: seq<T>, before: (T, T) -> bool)
    requires s != []
    ensures var init, x := s[..|s| - 1], s[|s| - 1];
            s == init + [x] && Sort(s, before) == Insert(x, Sort(init, before), before)
  {
  }
}
