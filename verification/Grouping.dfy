/** The source groups rows with an insertion-ordered `Map<string, Row[]>`:
    `m.set(k, [...(m.get(k) ?? []), row])`. A `Table` is that map together with its key order. */
module Grouping {

  function Filter<T>(s: seq<T>, p: T -> bool): (r: seq<T>)
    ensures forall x | x in r :: x in s && p(x)
    ensures forall x | x in s && p(x) :: x in r
    ensures |r| <= |s|
  {
    if s == [] then []
    else
      var r := Filter(s[..|s| - 1], p);
      assert s == s[..|s| - 1] + [s[|s| - 1]];
      if p(s[|s| - 1]) then r + [s[|s| - 1]] else r
  }

  datatype Table<T> = Table(order: seq<string>, rows: map<string, seq<T>>)

  function EmptyTable<T>(): Table<T> {
    Table([], map[])
  }

  function Put<T>(t: Table<T>, k: string, x: T): Table<T> {
    if k in t.rows then Table(t.order, t.rows[k := t.rows[k] + [x]])
    else Table(t.order + [k], t.rows[k := [x]])
  }

  function GroupBy<T>(items: seq<T>, key: T -> string): Table<T> {
    if items == [] then EmptyTable()
    else
      var last := items[|items| - 1];
      Put(GroupBy(items[..|items| - 1], key), key(last), last)
  }

  ghost predicate KeyListed<T>(t: Table<T>, k: string) {
    k in t.order <==> k in t.rows
  }

  /** The key order lists every key once. */
  ghost predicate WellFormed<T>(t: Table<T>) {
    && multiset(t.order) == multiset(t.rows.Keys)
    && forall k :: KeyListed(t, k)
  }

  /** `[...m.values()]`. */
  function Values<T>(t: Table<T>): (vs: seq<seq<T>>)
    requires WellFormed(t)
    ensures |vs| == |t.order|
    ensures forall i | 0 <= i < |vs| :: t.order[i] in t.rows && vs[i] == t.rows[t.order[i]]
  {
    assert forall i | 0 <= i < |t.order| :: KeyListed(t, t.order[i]);
    seq(|t.order|, i requires 0 <= i < |t.order| => assert KeyListed(t, t.order[i]); t.rows[t.order[i]])
  }

  lemma GroupByStep<T>(items: seq<T>, i: nat, key: T -> string)
    requires i < |items|
    ensures GroupBy(items[..i + 1], key) == Put(GroupBy(items[..i], key), key(items[i]), items[i])
  {
    assert items[..i + 1][..i] == items[..i];
  }

  lemma FilterStep<T>(items: seq<T>, i: nat, p: T -> bool)
    requires i < |items|
    ensures Filter(items[..i + 1], p) == Filter(items[..i], p) + if p(items[i]) then [items[i]] else []
  {
    assert items[..i + 1][..i] == items[..i];
  }

  function HasKey<T>(key: T -> string, k: string): T -> bool {
    x => key(x) == k
  }

  /** The items carrying a key. */
  function Row<T>(items: seq<T>, key: T -> string, k: string): seq<T> {
    Filter(items, HasKey(key, k))
  }

  /** What grouping means for one key: it appears iff some item carries it, with exactly those items. */
  ghost predicate RowRight<T>(items: seq<T>, key: T -> string, t: Table<T>, k: string) {
    && (k in t.rows <==> Row(items, key, k) != [])
    && (k in t.rows ==> t.rows[k] == Row(items, key, k))
  }

  lemma {:induction false} GroupByRows<T>(items: seq<T>, key: T -> string)
    ensures WellFormed(GroupBy(items, key))
    ensures forall k :: RowRight(items, key, GroupBy(items, key), k)
  {
    if items != [] {
      var init, last := items[..|items| - 1], items[|items| - 1];
      GroupByRows(init, key);
      PutWellFormed(GroupBy(init, key), key(last), last);
      forall k ensures RowRight(items, key, GroupBy(items, key), k) {
        assert RowRight(init, key, GroupBy(init, key), k);
      }
    }
  }

  lemma PutWellFormed<T>(t: Table<T>, k: string, x: T)
    requires WellFormed(t)
    ensures WellFormed(Put(t, k, x))
  {
    var t' := Put(t, k, x);
    forall j ensures KeyListed(t', j) {
      assert KeyListed(t, j);
    }
    assert KeyListed(t, k);
    if k !in t.rows {
      assert multiset(t.order + [k]) == multiset(t.order) + multiset{k};
      assert t'.rows.Keys == t.rows.Keys + {k};
    } else {
      assert t'.rows.Keys == t.rows.Keys;
    }
  }

  /** The `i`-th group is the row of the `i`-th key, and it is not empty. */
  lemma ValueAt<T>(items: seq<T>, key: T -> string, i: nat)
    requires i < |GroupBy(items, key).order|
    ensures WellFormed(GroupBy(items, key))
    ensures Values(GroupBy(items, key))[i] == Row(items, key, GroupBy(items, key).order[i]) != []
  {
    GroupByRows(items, key);
    var t := GroupBy(items, key);
    assert KeyListed(t, t.order[i]) && RowRight(items, key, t, t.order[i]);
  }

  /** Every item's key is listed. */
  lemma KeyAt<T>(items: seq<T>, key: T -> string, x: T) returns (i: nat)
    requires x in items
    ensures i < |GroupBy(items, key).order| && GroupBy(items, key).order[i] == key(x)
  {
    GroupByRows(items, key);
    var t := GroupBy(items, key);
    assert HasKey(key, key(x))(x);
    assert x in Row(items, key, key(x));
    assert RowRight(items, key, t, key(x)) && KeyListed(t, key(x));
    i :| 0 <= i < |t.order| && t.order[i] == key(x);
  }

  ghost predicate EachOnce(s: seq<string>) {
    forall i, j | 0 <= i < j < |s| :: s[i] != s[j]
  }

  lemma ListedOnce(s: seq<string>, ids: set<string>)
    requires multiset(s) == multiset(ids)
    ensures EachOnce(s)
  {
    forall i, j | 0 <= i < j < |s| ensures s[i] != s[j] {
      assert s == s[..j] + s[j..];
      assert s[i] in s[..j] && s[j] in s[j..];
      assert multiset(s)[s[i]] == multiset(s[..j])[s[i]] + multiset(s[j..])[s[i]];
    }
  }

  lemma {:induction false} FilterNone<T>(s: seq<T>, p: T -> bool)
    requires forall x | x in s :: !p(x)
    ensures Filter(s, p) == []
  {
    if s != [] {
      assert s[|s| - 1] in s;
      FilterNone(s[..|s| - 1], p);
    }
  }

  lemma {:induction false} FilterSame<T>(s: seq<T>, p: T -> bool, q: T -> bool)
    requires forall x | x in s :: p(x) == q(x)
    ensures Filter(s, p) == Filter(s, q)
  {
    if s != [] {
      assert s[|s| - 1] in s;
      FilterSame(s[..|s| - 1], p, q);
    }
  }

  lemma {:induction false} FilterDistinct<T>(s: seq<T>, p: T -> bool)
    requires forall i, j | 0 <= i < j < |s| :: s[i] != s[j]
    ensures forall i, j | 0 <= i < j < |Filter(s, p)| :: Filter(s, p)[i] != Filter(s, p)[j]
  {
    if s != [] {
      var init, last := s[..|s| - 1], s[|s| - 1];
      FilterDistinct(init, p);
      assert last !in init;
      assert forall x | x in Filter(init, p) :: x in init;
    }
  }
}
