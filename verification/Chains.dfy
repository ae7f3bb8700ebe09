/** Reachability along a symmetric relation: the reference notion of "joined by a chain". */
module Chains {

  ghost predicate Adjacent<T(!new)>(r: (T, T) -> bool, p: seq<T>, i: int) {
    0 <= i < |p| - 1 ==> r(p[i], p[i + 1]) || r(p[i + 1], p[i])
  }

  ghost predicate IsChain<T(!new)>(r: (T, T) -> bool, p: seq<T>) {
    p != [] && forall i :: Adjacent(r, p, i)
  }

  ghost predicate Joins<T(!new)>(r: (T, T) -> bool, p: seq<T>, x: T, y: T) {
    IsChain(r, p) && p[0] == x && p[|p| - 1] == y
  }

  ghost predicate Linked<T(!new)>(r: (T, T) -> bool, x: T, y: T) {
    exists p :: Joins(r, p, x, y)
  }

  lemma LinkedRefl<T(!new)>(r: (T, T) -> bool, x: T)
    ensures Linked(r, x, x)
  {
    assert Joins(r, [x], x, x);
  }

  lemma LinkedStep<T(!new)>(r: (T, T) -> bool, x: T, y: T)
    requires r(x, y)
    ensures Linked(r, x, y) && Linked(r, y, x)
  {
    assert Joins(r, [x, y], x, y);
    assert Joins(r, [y, x], y, x);
  }

  lemma LinkedTrans<T(!new)>(r: (T, T) -> bool, x: T, y: T, z: T)
    requires Linked(r, x, y) && Linked(r, y, z)
    ensures Linked(r, x, z)
  {
    var p :| Joins(r, p, x, y);
    var q :| Joins(r, q, y, z);
    var pq := p + q[1..];
    forall i ensures Adjacent(r, pq, i) {
      if 0 <= i < |pq| - 1 {
        var k := i - (|p| - 1);
        if k < 0 {
          assert Adjacent(r, p, i);
        } else {
          assert Adjacent(r, q, k) && pq[i] == q[k] && pq[i + 1] == q[k + 1];
        }
      }
    }
    assert Joins(r, pq, x, z);
  }

  lemma {:induction false} LinkedSym<T(!new)>(r: (T, T) -> bool, x: T, y: T)
    requires Linked(r, x, y)
    ensures Linked(r, y, x)
  {
    var p :| Joins(r, p, x, y);
    var q := seq(|p|, i requires 0 <= i < |p| => p[|p| - 1 - i]);
    forall i ensures Adjacent(r, q, i) {
      assert Adjacent(r, p, |p| - 2 - i);
    }
    assert Joins(r, q, y, x);
  }

  /** A relation inside another links no more than it. */
  lemma LinkedMono<T(!new)>(r: (T, T) -> bool, s: (T, T) -> bool, x: T, y: T)
    requires Linked(r, x, y)
    requires forall u, v | r(u, v) :: s(u, v)
    ensures Linked(s, x, y)
  {
    var p :| Joins(r, p, x, y);
    forall i ensures Adjacent(s, p, i) {
      assert Adjacent(r, p, i);
    }
    assert Joins(s, p, x, y);
  }

  /** A classification that identifies related elements identifies linked ones. */
  lemma LinkedRespects<T(!new), L>(r: (T, T) -> bool, cls: T -> L, x: T, y: T)
    requires Linked(r, x, y)
    requires forall u, v | r(u, v) :: cls(u) == cls(v)
    ensures cls(x) == cls(y)
  {
    var p :| Joins(r, p, x, y);
    ChainRespects(r, cls, p);
  }

  lemma {:induction false} ChainRespects<T(!new), L>(r: (T, T) -> bool, cls: T -> L, p: seq<T>)
    requires IsChain(r, p)
    requires forall u, v | r(u, v) :: cls(u) == cls(v)
    ensures cls(p[0]) == cls(p[|p| - 1])
    decreases |p|
  {
    if |p| > 1 {
      var q := p[..|p| - 1];
      forall i ensures Adjacent(r, q, i) {
        assert Adjacent(r, p, i);
      }
      ChainRespects(r, cls, q);
      assert Adjacent(r, p, |p| - 2);
    }
  }
}
