/** JavaScript's `Array.prototype.sort` is a stable sort. This module fixes it as
    insertion from the back and proves what its users rely on. */
module StableSort {

  ghost predicate TotalPreorder<T(!new)>(le: (T, T) -> bool) {
    && (forall a, b :: le(a, b) || le(b, a))
    && (forall a, b, c :: le(a, b) && le(b, c) ==> le(a, c))
  }

  ghost predicate SortedBy<T>(le: (T, T) -> bool, s: seq<T>) {
    forall i, j | 0 <= i < j < |s| :: le(s[i], s[j])
  }

  function Insert<T>(le: (T, T) -> bool, x: T, s: seq<T>): (r: seq<T>)
    ensures multiset(r) == multiset{x} + multiset(s)
    ensures |r| == |s| + 1
  {
    if s == [] then [x]
    else if le(x, s[0]) then [x] + s
    else
      assert s == [s[0]] + s[1..];
      [s[0]] + Insert(le, x, s[1..])
  }

  /** The stable sort: an element never moves past one it ties with. */
  function Sort<T>(le: (T, T) -> bool, s: seq<T>): (r: seq<T>)
    ensures multiset(r) == multiset(s)
    ensures |r| == |s|
  {
    if s == [] then []
    else
      assert s == [s[0]] + s[1..];
      Insert(le, s[0], Sort(le, s[1..]))
  }

  lemma SameElements<T>(s: seq<T>, r: seq<T>)
    requires multiset(s) == multiset(r)
    ensures forall x :: x in s <==> x in r
  {
    forall x ensures x in s <==> x in r {
      assert x in s <==> x in multiset(s);
      assert x in r <==> x in multiset(r);
    }
  }

  lemma {:induction false} InsertSorted<T(!new)>(le: (T, T) -> bool, x: T, s: seq<T>)
    requires TotalPreorder(le) && SortedBy(le, s)
    ensures SortedBy(le, Insert(le, x, s))
  {
    if s != [] && !le(x, s[0]) {
      var t := Insert(le, x, s[1..]);
      InsertSorted(le, x, s[1..]);
      forall y | y in t ensures le(s[0], y) {
        assert y in multiset(t);
        if y != x {
          assert y in s[1..];
        }
      }
    } else if s != [] {
      forall y | y in s ensures le(x, y) {
        assert le(s[0], y);
      }
    }
  }

  lemma {:induction false} SortSorted<T(!new)>(le: (T, T) -> bool, s: seq<T>)
    requires TotalPreorder(le)
    ensures SortedBy(le, Sort(le, s))
  {
    if s != [] {
      SortSorted(le, s[1..]);
      InsertSorted(le, s[0], Sort(le, s[1..]));
    }
  }

  /** The head of the sorted list is the FIRST of the best elements of the input. */
  lemma {:induction false} SortHead<T(!new)>(le: (T, T) -> bool, s: seq<T>) returns (i: nat)
    requires TotalPreorder(le) && s != []
    ensures i < |s| && Sort(le, s)[0] == s[i]
    ensures forall j | 0 <= j < |s| :: le(s[i], s[j])
    ensures forall j | 0 <= j < i :: !le(s[j], s[i])
  {
    i := 0;
    if |s| == 1 {
      assert le(s[0], s[0]);
    } else {
      var k := SortHead(le, s[1..]);
      if !le(s[0], s[k + 1]) {
        i := k + 1;
      }
      hide Sort, Insert;
      BestOfRest(le, s, k);
    }
  }

  lemma BestOfRest<T(!new)>(le: (T, T) -> bool, s: seq<T>, k: nat)
    requires TotalPreorder(le) && k + 1 < |s|
    requires forall j | 0 <= j < |s[1..]| :: le(s[k + 1], s[1..][j])
    requires forall j | 0 <= j < k :: !le(s[1..][j], s[k + 1])
    ensures var i := if le(s[0], s[k + 1]) then 0 else k + 1;
            && (forall j | 0 <= j < |s| :: le(s[i], s[j]))
            && (forall j | 0 <= j < i :: !le(s[j], s[i]))
  {
    assert le(s[0], s[0]);
    assert le(s[0], s[k + 1]) || le(s[k + 1], s[0]);
    forall j | 0 < j < |s| ensures le(s[k + 1], s[j]) {
      assert s[j] == s[1..][j - 1];
    }
    forall j | 0 < j < k + 1 ensures !le(s[j], s[k + 1]) {
      assert s[j] == s[1..][j - 1];
    }
  }

  // ----- Comparators joined with `||` -----

  /** `f(a, b) || g(a, b)`: `g` decides where `f` ties. */
  function Then<T>(f: (T, T) -> bool, g: (T, T) -> bool): (T, T) -> bool {
    (a, b) => f(a, b) && (!f(b, a) || g(a, b))
  }

  lemma ThenPreorder<T(!new)>(f: (T, T) -> bool, g: (T, T) -> bool)
    requires TotalPreorder(f) && TotalPreorder(g)
    ensures TotalPreorder(Then(f, g))
  {
  }

  function ByNumber<T>(key: T -> int): (T, T) -> bool {
    (a, b) => key(a) <= key(b)
  }

  ghost predicate Increasing<T>(key: T -> int, s: seq<T>) {
    forall i, j | 0 <= i < j < |s| :: key(s[i]) < key(s[j])
  }

  lemma {:induction false} InsertFirst<T>(le: (T, T) -> bool, key: T -> int, x: T, s: seq<T>)
    requires forall y | y in s :: key(x) <= key(y)
    ensures Insert(le, x, s) == Insert(Then(le, ByNumber(key)), x, s)
  {
    if s != [] && !le(x, s[0]) {
      InsertFirst(le, key, x, s[1..]);
    }
  }

  /** Stability: on elements listed by increasing number, sorting by `le` is sorting by `le` and then by number. */
  lemma {:induction false} SortBreaksTiesByOrder<T(!new)>(le: (T, T) -> bool, key: T -> int, s: seq<T>)
    requires Increasing(key, s)
    ensures Sort(le, s) == Sort(Then(le, ByNumber(key)), s)
  {
    if s != [] {
      var rest, sorted := s[1..], Sort(le, s[1..]);
      FirstIsLeast(key, s);
      LeastOfSorted(le, key, s[0], rest);
      hide Insert, Then, Increasing, ByNumber;
      SortBreaksTiesByOrder(le, key, rest);
      InsertFirst(le, key, s[0], sorted);
    }
  }

  lemma LeastOfSorted<T(!new)>(le: (T, T) -> bool, key: T -> int, x: T, s: seq<T>)
    requires forall y | y in s :: key(x) <= key(y)
    ensures forall y | y in Sort(le, s) :: key(x) <= key(y)
  {
    hide Sort;
    SameElements(s, Sort(le, s));
    forall y | y in Sort(le, s) ensures key(x) <= key(y) {
      assert y in s;
    }
  }

  lemma FirstIsLeast<T>(key: T -> int, s: seq<T>)
    requires Increasing(key, s) && s != []
    ensures Increasing(key, s[1..]) && forall y | y in s[1..] :: key(s[0]) <= key(y)
  {
  }

  ghost predicate Distinct<T>(key: T -> int, s: seq<T>) {
    forall i, j | 0 <= i < j < |s| :: key(s[i]) != key(s[j])
  }

  lemma {:induction false} InsertDistinct<T(!new)>(le: (T, T) -> bool, key: T -> int, x: T, s: seq<T>)
    requires Distinct(key, s) && forall y | y in s :: key(x) != key(y)
    ensures Distinct(key, Insert(le, x, s))
  {
    if s != [] && !le(x, s[0]) {
      var t := Insert(le, x, s[1..]);
      InsertDistinct(le, key, x, s[1..]);
      forall y | y in t ensures key(s[0]) != key(y) {
        assert y in multiset(t);
        assert y == x || y in s[1..];
      }
    }
  }

  lemma {:induction false} SortDistinct<T(!new)>(le: (T, T) -> bool, key: T -> int, s: seq<T>)
    requires Distinct(key, s)
    ensures Distinct(key, Sort(le, s))
  {
    if s != [] {
      var rest := s[1..];
      SortDistinct(le, key, rest);
      SameElements(rest, Sort(le, rest));
      forall y | y in Sort(le, rest) ensures key(s[0]) != key(y) {
        assert y in rest;
      }
      InsertDistinct(le, key, s[0], Sort(le, rest));
    }
  }

  // ----- Places -----

  lemma {:induction false} SortedIsSort<T(!new)>(le: (T, T) -> bool, s: seq<T>)
    requires SortedBy(le, s)
    ensures Sort(le, s) == s
  {
    if s != [] {
      SortedIsSort(le, s[1..]);
      assert |s| > 1 ==> le(s[0], s[1]);
      assert s == [s[0]] + s[1..];
    }
  }

  /** Sorting leaves a list alone exactly when it is sorted. */
  lemma SortKeepsSorted<T(!new)>(le: (T, T) -> bool, s: seq<T>)
    requires TotalPreorder(le)
    ensures Sort(le, s) == s <==> SortedBy(le, s)
  {
    SortSorted(le, s);
    if SortedBy(le, s) {
      SortedIsSort(le, s);
    }
  }

  /** How many elements of the list go strictly before `x`. */
  function Ahead<T>(le: (T, T) -> bool, s: seq<T>, x: T): nat {
    if s == [] then 0 else (if le(x, s[0]) then 0 else 1) + Ahead(le, s[1..], x)
  }

  lemma {:induction false} AheadInsert<T>(le: (T, T) -> bool, y: T, s: seq<T>, x: T)
    ensures Ahead(le, Insert(le, y, s), x) == Ahead(le, s, x) + if le(x, y) then 0 else 1
  {
    if s != [] && !le(y, s[0]) {
      AheadInsert(le, y, s[1..], x);
    }
  }

  /** Sorting does not change how many go before. */
  lemma {:induction false} AheadSort<T>(le: (T, T) -> bool, s: seq<T>, x: T)
    ensures Ahead(le, Sort(le, s), x) == Ahead(le, s, x)
  {
    if s != [] {
      AheadSort(le, s[1..], x);
      AheadInsert(le, s[0], Sort(le, s[1..]), x);
    }
  }

  lemma {:induction false} NoneAhead<T>(le: (T, T) -> bool, s: seq<T>, x: T)
    requires forall i | 0 <= i < |s| :: le(x, s[i])
    ensures Ahead(le, s, x) == 0
  {
    if s != [] {
      NoneAhead(le, s[1..], x);
    }
  }

  /** In a list sorted without ties an element stands where the number of those before it says. */
  lemma {:induction false} PlaceInSorted<T(!new)>(le: (T, T) -> bool, s: seq<T>, k: nat)
    requires TotalPreorder(le) && k < |s| && SortedBy(le, s)
    requires forall i, j | 0 <= i < j < |s| :: !le(s[j], s[i])
    ensures Ahead(le, s, s[k]) == k
  {
    if k == 0 {
      assert le(s[0], s[0]);
      NoneAhead(le, s, s[0]);
    } else {
      assert s[1..][k - 1] == s[k];
      PlaceInSorted(le, s[1..], k - 1);
    }
  }
}
