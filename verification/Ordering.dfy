/** Byte-wise string order and the library sort the Go code calls. */
module Ordering {

  /** Go's `a < b` on strings: lexicographic, a proper prefix is smaller. */
  predicate Less(a: string, b: string) {
    b != "" && (a == "" || a[0] < b[0] || (a[0] == b[0] && Less(a[1..], b[1..])))
  }

  /** Less decides at the first byte that differs, or by length if there is none. */
  lemma {:induction false} LessAtFirstDifference(a: string, b: string, k: nat)
    requires k <= |a| && k <= |b| && a[..k] == b[..k]
    requires k == |a| || k == |b| || a[k] != b[k]
    ensures Less(a, b) <==> k < |b| && (k == |a| || a[k] < b[k])
  {
    if k > 0 {
      assert a[0] == a[..k][0] == b[..k][0] == b[0];
      assert a[1..][..k-1] == a[..k][1..] == b[..k][1..] == b[1..][..k-1];
      LessAtFirstDifference(a[1..], b[1..], k - 1);
    }
  }

  lemma {:induction false} LessTotal(a: string, b: string)
    ensures a == b || Less(a, b) || Less(b, a)
  {
    if a != "" && b != "" && a[0] == b[0] {
      LessTotal(a[1..], b[1..]);
      if a[1..] == b[1..] {
        assert a == [a[0]] + a[1..] && b == [b[0]] + b[1..];
      }
    }
  }

  lemma {:induction false} LessTransitive(a: string, b: string, c: string)
    requires Less(a, b) && Less(b, c)
    ensures Less(a, c)
  {
    if a != "" && a[0] == b[0] && b[0] == c[0] {
      LessTransitive(a[1..], b[1..], c[1..]);
    }
  }

  lemma {:induction false} LessIrreflexive(a: string)
    ensures !Less(a, a)
  {
    if a != "" { LessIrreflexive(a[1..]); }
  }

  /** `before` is a strict linear order on the elements of s. */
  ghost predicate Linear<T>(before: (T, T) -> bool, s: set<T>) {
    && (forall x :: x in s ==> !before(x, x))
    && (forall x, y :: x in s && y in s && x != y ==> before(x, y) || before(y, x))
    && (forall x, y, z :: x in s && y in s && z in s && before(x, y) && before(y, z) ==> before(x, z))
  }

  ghost predicate NoDuplicates<T>(s: seq<T>) {
    forall i, j :: 0 <= i < j < |s| ==> s[i] != s[j]
  }

  ghost predicate Sorted<T>(before: (T, T) -> bool, s: seq<T>) {
    forall i, j :: 0 <= i < j < |s| ==> before(s[i], s[j])
  }

  ghost function Elements<T>(s: seq<T>): set<T> {
    set x | x in s
  }

  /** The elements of s that come before r. */
  ghost function Ahead<T>(before: (T, T) -> bool, s: set<T>, r: T): set<T> {
    set x | x in s && before(x, r)
  }

  function Insert<T>(before: (T, T) -> bool, x: T, s: seq<T>): seq<T> {
    if s == [] || before(x, s[0]) then [x] + s else [s[0]] + Insert(before, x, s[1..])
  }

  /** Stands for `sort.Slice(s, before)`. The Go sort is not stable, but on distinct elements
      of a linear order there is only one sorted arrangement. */
  function SortBy<T>(before: (T, T) -> bool, s: seq<T>): seq<T> {
    if s == [] then [] else Insert(before, s[0], SortBy(before, s[1..]))
  }

  lemma {:induction false} InsertSorted<T>(before: (T, T) -> bool, x: T, s: seq<T>)
    requires Linear(before, Elements(s) + {x}) && Sorted(before, s) && x !in s
    ensures Sorted(before, Insert(before, x, s))
    ensures |Insert(before, x, s)| == |s| + 1
    ensures Elements(Insert(before, x, s)) == Elements(s) + {x}
  {
    if s != [] && !before(x, s[0]) {
      assert s == [s[0]] + s[1..];
      InsertSorted(before, x, s[1..]);
      var rest := Insert(before, x, s[1..]);
      forall j | 0 <= j < |rest|
        ensures before(s[0], rest[j])
      {
        assert rest[j] in Elements(rest);
        assert rest[j] in Elements(s[1..]) + {x};
      }
    } else {
      assert forall j :: 0 <= j < |s| ==> before(x, s[j]) by {
        forall j | 0 <= j < |s| ensures before(x, s[j]) {
          assert s[0] in Elements(s) && s[j] in Elements(s);
        }
      }
    }
  }

  lemma {:induction false} SortBySorts<T>(before: (T, T) -> bool, s: seq<T>)
    requires Linear(before, Elements(s)) && NoDuplicates(s)
    ensures Sorted(before, SortBy(before, s))
    ensures |SortBy(before, s)| == |s|
    ensures Elements(SortBy(before, s)) == Elements(s)
  {
    if s != [] {
      assert Elements(s[1..]) <= Elements(s);
      SortBySorts(before, s[1..]);
      var sorted := SortBy(before, s[1..]);
      assert s[0] !in Elements(s[1..]);
      assert s[0] !in Elements(sorted);
      assert Elements(s) == Elements(s[1..]) + {s[0]};
      InsertSorted(before, s[0], sorted);
    }
  }

  /** A sequence without repeats has as many elements as positions. */
  lemma {:induction false} CountElements<T>(s: seq<T>)
    requires NoDuplicates(s)
    ensures |Elements(s)| == |s|
  {
    if s != [] {
      var n := |s| - 1;
      CountElements(s[..n]);
      assert s[n] !in Elements(s[..n]);
      assert Elements(s) == Elements(s[..n]) + {s[n]};
    }
  }

  /** The position of an element in sorted order is the number of elements before it. */
  lemma {:induction false} PositionIsRank<T>(before: (T, T) -> bool, s: seq<T>, i: nat)
    requires Linear(before, Elements(s)) && Sorted(before, s) && i < |s|
    ensures |Ahead(before, Elements(s), s[i])| == i
  {
    assert forall j :: 0 <= j < |s| ==> s[j] in Elements(s);
    forall x | x in Elements(s)
      ensures before(x, s[i]) <==> x in s[..i]
    {
      var j :| 0 <= j < |s| && s[j] == x;
      if j < i { assert s[..i][j] == x; }
      if x in s[..i] {
        var m :| 0 <= m < i && s[..i][m] == x;
        assert before(s[m], s[i]);
      }
    }
    assert NoDuplicates(s[..i]) by {
      forall a, b | 0 <= a < b < i ensures s[a] != s[b] { assert before(s[a], s[b]); }
    }
    CountElements(s[..i]);
    assert Ahead(before, Elements(s), s[i]) == Elements(s[..i]);
  }

  /** A non-empty finite set has a first element. */
  lemma {:induction false} FirstOf<T>(before: (T, T) -> bool, s: set<T>) returns (first: T)
    requires s != {} && Linear(before, s)
    ensures first in s && forall x :: x in s && x != first ==> before(first, x)
    decreases |s|
  {
    first :| first in s;
    if s != {first} {
      var other := FirstOf(before, s - {first});
      if before(other, first) { first := other; }
    }
  }

  /** If at least `cap` elements of s come before r, then at least `cap` of those have fewer
      than `cap` predecessors themselves: the first `cap` of s. */
  lemma {:induction false} Leaders<T>(before: (T, T) -> bool, s: set<T>, r: T, cap: nat)
    requires Linear(before, s) && r in s
    requires |Ahead(before, s, r)| >= cap
    ensures |set x | x in Ahead(before, s, r) && |Ahead(before, s, x)| < cap| >= cap
  {
    var ahead := Ahead(before, s, r);
    var lead := set x | x in ahead && |Ahead(before, s, x)| < cap;
    if |lead| < cap {
      assert ahead - lead != {} by {
        assert ahead == lead + (ahead - lead);
      }
      var top := FirstOf(before, ahead - lead);
      SubsetSize(Ahead(before, s, top), lead);
      assert false;
    }
  }

  lemma {:induction false} SubsetSize<T>(a: set<T>, b: set<T>)
    requires a <= b
    ensures |a| <= |b|
    decreases |a|
  {
    if a != {} {
      var x :| x in a;
      SubsetSize(a - {x}, b - {x});
    }
  }
}
