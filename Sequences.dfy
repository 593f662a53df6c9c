/** Sequence helpers standing in for the Java collection idioms the sharder uses:
    stream filtering, mapping, and `ImmutableSet` (a duplicate-free collection that
    iterates in first-insertion order). */
module Sequences {

  /** `stream().filter(p)`: keeps, in order, the elements satisfying `p`. */
  function Filter<T(!new)>(s: seq<T>, p: T -> bool): (r: seq<T>)
    ensures forall x :: x in r <==> x in s && p(x)
    ensures |r| <= |s|
    ensures NoDuplicates(s) ==> NoDuplicates(r)
  {
    if s == [] then []
    else if p(s[0]) then [s[0]] + Filter(s[1..], p)
    else Filter(s[1..], p)
  }

  /** `stream().map(f)`. */
  function MapSeq<T, U>(s: seq<T>, f: T -> U): (r: seq<U>)
    ensures |r| == |s|
    ensures forall i :: 0 <= i < |s| ==> r[i] == f(s[i])
  {
    seq(|s|, i requires 0 <= i < |s| => f(s[i]))
  }

  ghost predicate NoDuplicates<T>(s: seq<T>) {
    forall i, j :: 0 <= i < j < |s| ==> s[i] != s[j]
  }

  /** Some occurrence of `x` in `s` comes before every occurrence of `y`. */
  ghost predicate FirstSeenBefore<T>(s: seq<T>, x: T, y: T) {
    exists k :: 0 <= k < |s| && s[k] == x && y !in s[..k + 1]
  }

  /** `x` occurs in `s` at some position before an occurrence of `y`. */
  ghost predicate Precedes<T>(s: seq<T>, x: T, y: T) {
    exists a, b :: 0 <= a < b < |s| && s[a] == x && s[b] == y
  }

  /** `filter` keeps the input's order: of any two kept elements, the earlier one
      occurs in the input before the later one. */
  lemma {:induction false} FilterKeepsOrder<T(!new)>(s: seq<T>, p: T -> bool)
    ensures forall i, j :: 0 <= i < j < |Filter(s, p)| ==> Precedes(s, Filter(s, p)[i], Filter(s, p)[j])
  {
    if s != [] {
      var t := s[1..];
      var r := Filter(s, p);
      var rt := Filter(t, p);
      FilterKeepsOrder(t, p);
      forall i, j | 0 <= i < j < |r| ensures Precedes(s, r[i], r[j]) {
        if p(s[0]) {
          assert r == [s[0]] + rt;
          if i == 0 {
            assert rt[j - 1] in t;
            var b :| 0 <= b < |t| && t[b] == rt[j - 1];
            assert s[0] == r[i] && s[b + 1] == r[j];
          } else {
            var a, b :| 0 <= a < b < |t| && t[a] == rt[i - 1] && t[b] == rt[j - 1];
            assert s[a + 1] == r[i] && s[b + 1] == r[j];
          }
        } else {
          assert r == rt;
          var a, b :| 0 <= a < b < |t| && t[a] == rt[i] && t[b] == rt[j];
          assert s[a + 1] == r[i] && s[b + 1] == r[j];
        }
      }
    }
  }

  /** The first element `filter` keeps is the first element of the input that
      satisfies `p`. */
  lemma {:induction false} FilterFirstIsEarliest<T(!new)>(s: seq<T>, p: T -> bool)
    requires Filter(s, p) != []
    ensures exists a ::
      && 0 <= a < |s| && s[a] == Filter(s, p)[0] && p(s[a])
      && forall c :: 0 <= c < a ==> !p(s[c])
  {
    if !p(s[0]) {
      FilterFirstIsEarliest(s[1..], p);
      var a :| 0 <= a < |s[1..]| && s[1..][a] == Filter(s[1..], p)[0] && p(s[1..][a])
        && forall c :: 0 <= c < a ==> !p(s[1..][c]);
      assert s[a + 1] == Filter(s, p)[0];
      forall c | 0 <= c < a + 1 ensures !p(s[c]) {
        if c > 0 { assert s[c] == s[1..][c - 1]; }
      }
    }
  }

  /** First-seen order survives `filter` when the later element is kept. */
  lemma {:induction false} FilterKeepsFirstSeen<T(!new)>(s: seq<T>, p: T -> bool, x: T, y: T)
    requires p(y)
    requires FirstSeenBefore(Filter(s, p), x, y)
    ensures FirstSeenBefore(s, x, y)
  {
    var t := s[1..];
    var rt := Filter(t, p);
    assert s == [s[0]] + t;
    if p(s[0]) {
      assert Filter(s, p) == [s[0]] + rt;
      if s[0] == x {
        FirstSeenAtHead(s, x, y);
      } else {
        FirstSeenTail([s[0]] + rt, x, y);
        FilterKeepsFirstSeen(t, p, x, y);
        FirstSeenCons(s, x, y);
      }
    } else {
      assert Filter(s, p) == rt;
      FilterKeepsFirstSeen(t, p, x, y);
      assert s[0] != y;
      FirstSeenCons(s, x, y);
    }
  }

  lemma FirstSeenAtHead<T>(s: seq<T>, x: T, y: T)
    requires s != [] && s[0] == x && x != y
    ensures FirstSeenBefore(s, x, y)
  {
    assert s[..1] == [x];
  }

  /** Dropping a head that is neither element keeps first-seen order. */
  lemma FirstSeenTail<T>(s: seq<T>, x: T, y: T)
    requires s != [] && s[0] != x
    requires FirstSeenBefore(s, x, y)
    ensures s[0] != y && FirstSeenBefore(s[1..], x, y)
  {
    var k :| 0 <= k < |s| && s[k] == x && y !in s[..k + 1];
    assert s[0] in s[..k + 1];
    assert s[1..][k - 1] == x;
    assert s[1..][..k] == s[1..k + 1];
  }

  /** Putting a head that is not the later element in front keeps first-seen order. */
  lemma FirstSeenCons<T>(s: seq<T>, x: T, y: T)
    requires s != [] && s[0] != y
    requires FirstSeenBefore(s[1..], x, y)
    ensures FirstSeenBefore(s, x, y)
  {
    var k :| 0 <= k < |s[1..]| && s[1..][k] == x && y !in s[1..][..k + 1];
    assert s[..k + 2] == [s[0]] + s[1..][..k + 1];
    assert s[k + 1] == x;
  }

  /** `filter(p).collect(toImmutableSet())` lists its members in the order in
      which they are first seen in the input. */
  lemma DistinctFilterFirstSeen<T(!new)>(s: seq<T>, p: T -> bool)
    ensures forall i, j :: 0 <= i < j < |Distinct(Filter(s, p))| ==>
      FirstSeenBefore(s, Distinct(Filter(s, p))[i], Distinct(Filter(s, p))[j])
  {
    var d := Distinct(Filter(s, p));
    DistinctKeepsFirstSeenOrder(Filter(s, p));
    forall i, j | 0 <= i < j < |d| ensures FirstSeenBefore(s, d[i], d[j]) {
      assert d[j] in Filter(s, p);
      FilterKeepsFirstSeen(s, p, d[i], d[j]);
    }
  }

  /** `ImmutableSet.copyOf(s)`: the distinct elements of `s`, each at the place
      where it was first encountered (see `DistinctKeepsFirstSeenOrder`). */
  function Distinct<T(==,!new)>(s: seq<T>): (r: seq<T>)
    ensures forall x :: x in r <==> x in s
    ensures NoDuplicates(r)
    ensures |r| <= |s|
  {
    if s == [] then []
    else
      var d := Distinct(s[..|s| - 1]);
      var last := s[|s| - 1];
      assert forall x :: x in s <==> x in s[..|s| - 1] || x == last;
      if last in d then d else d + [last]
  }

  /** `Distinct` lists elements in the order of their first occurrence. */
  lemma {:induction false} DistinctKeepsFirstSeenOrder<T(!new)>(s: seq<T>)
    ensures forall i, j :: 0 <= i < j < |Distinct(s)| ==> FirstSeenBefore(s, Distinct(s)[i], Distinct(s)[j])
  {
    if s != [] {
      var init := s[..|s| - 1];
      var last := s[|s| - 1];
      DistinctKeepsFirstSeenOrder(init);
      assert s == init + [last];
      DistinctOrderExtends(init, last, Distinct(init));
    }
  }

  /** The order facts about `Distinct(init)` carry over to `init + [last]`, and
      `last` (when new) is first seen after every earlier element. */
  lemma DistinctOrderExtends<T(!new)>(init: seq<T>, last: T, d: seq<T>)
    requires forall x :: x in d <==> x in init
    requires forall i, j :: 0 <= i < j < |d| ==> FirstSeenBefore(init, d[i], d[j])
    ensures forall i, j :: 0 <= i < j < |d| ==> FirstSeenBefore(init + [last], d[i], d[j])
    ensures last !in d ==> forall i :: 0 <= i < |d| ==> FirstSeenBefore(init + [last], d[i], last)
  {
    var s := init + [last];
    forall i, j | 0 <= i < j < |d| ensures FirstSeenBefore(s, d[i], d[j]) {
      var k :| 0 <= k < |init| && init[k] == d[i] && d[j] !in init[..k + 1];
      assert s[..k + 1] == init[..k + 1];
    }
    if last !in d {
      forall i | 0 <= i < |d| ensures FirstSeenBefore(s, d[i], last) {
        assert d[i] in init;
        var k :| 0 <= k < |init| && init[k] == d[i];
        assert s[..k + 1] == init[..k + 1];
        assert last !in init;
        assert forall y :: y in init[..k + 1] ==> y in init;
      }
    }
  }

  /** At most one distinct value among the elements of `s` exactly when any two
      elements are equal. */
  lemma DistinctAtMostOne<T(!new)>(s: seq<T>)
    ensures |Distinct(s)| <= 1 <==> forall i, j :: 0 <= i < |s| && 0 <= j < |s| ==> s[i] == s[j]
  {
    var d := Distinct(s);
    if |d| <= 1 {
      forall i, j | 0 <= i < |s| && 0 <= j < |s| ensures s[i] == s[j] {
        assert s[i] in d && s[j] in d;
      }
    } else {
      assert d[0] != d[1];
      assert d[0] in s && d[1] in s;
      var i :| 0 <= i < |s| && s[i] == d[0];
      var j :| 0 <= j < |s| && s[j] == d[1];
    }
  }

  /** Exactly one position of `s` satisfies `p`. */
  ghost predicate ExactlyOneIndex<T>(s: seq<T>, p: T -> bool) {
    exists k :: 0 <= k < |s| && p(s[k]) && forall k' :: 0 <= k' < |s| && p(s[k']) ==> k' == k
  }

  /** `stream().filter(p).count() == 1` exactly when one position satisfies `p`
      (duplicates count once per position). */
  lemma {:induction false} FilterCountOne<T(!new)>(s: seq<T>, p: T -> bool)
    ensures |Filter(s, p)| == 1 <==> ExactlyOneIndex(s, p)
  {
    if s != [] {
      var t := s[1..];
      if p(s[0]) {
        OneIndexAtHead(s, p);
        if Filter(t, p) != [] {
          assert Filter(t, p)[0] in Filter(t, p);
        }
      } else {
        FilterCountOne(t, p);
        OneIndexInTail(s, p);
      }
    }
  }

  lemma OneIndexAtHead<T>(s: seq<T>, p: T -> bool)
    requires s != [] && p(s[0])
    ensures ExactlyOneIndex(s, p) <==> forall x :: x in s[1..] ==> !p(x)
  {
    if !forall x :: x in s[1..] ==> !p(x) {
      var x :| x in s[1..] && p(x);
      var k :| 0 <= k < |s| - 1 && s[1..][k] == x;
      assert s[k + 1] == x;
    }
  }

  lemma OneIndexInTail<T>(s: seq<T>, p: T -> bool)
    requires s != [] && !p(s[0])
    ensures ExactlyOneIndex(s, p) <==> ExactlyOneIndex(s[1..], p)
  {
    var t := s[1..];
    if ExactlyOneIndex(t, p) {
      var k :| 0 <= k < |t| && p(t[k]) && forall k' :: 0 <= k' < |t| && p(t[k']) ==> k' == k;
      assert p(s[k + 1]);
      forall k' | 0 <= k' < |s| && p(s[k']) ensures k' == k + 1 {
        assert k' > 0 && p(t[k' - 1]);
      }
    }
    if ExactlyOneIndex(s, p) {
      var k :| 0 <= k < |s| && p(s[k]) && forall k' :: 0 <= k' < |s| && p(s[k']) ==> k' == k;
      assert k > 0 && p(t[k - 1]);
      forall k' | 0 <= k' < |t| && p(t[k']) ensures k' == k - 1 {
        assert p(s[k' + 1]);
      }
    }
  }
}
