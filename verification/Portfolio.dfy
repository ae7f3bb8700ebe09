/** The portfolio endpoint: revenue per client, the ABC curve, and the wallet by recency. */
module Portfolio {
  import opened StableSort

  datatype Sale = Sale(clientId: string, value: real)

  datatype Entry = Entry(clientId: string, revenue: real)

  // ----- Revenue per client: an insertion-ordered map -----

  function AddRevenue(entries: seq<Entry>, s: Sale): seq<Entry> {
    if entries == [] then [Entry(s.clientId, s.value)]
    else if entries[0].clientId == s.clientId then [Entry(s.clientId, entries[0].revenue + s.value)] + entries[1..]
    else [entries[0]] + AddRevenue(entries[1..], s)
  }

  function RevenueByClient(sales: seq<Sale>): seq<Entry> {
    if sales == [] then [] else AddRevenue(RevenueByClient(sales[..|sales| - 1]), sales[|sales| - 1])
  }

  function Revenue(entries: seq<Entry>): real {
    if entries == [] then 0.0 else entries[0].revenue + Revenue(entries[1..])
  }

  function SalesTotal(sales: seq<Sale>): real {
    if sales == [] then 0.0 else SalesTotal(sales[..|sales| - 1]) + sales[|sales| - 1].value
  }

  /** Sales of one client. */
  function SalesOf(sales: seq<Sale>, id: string): real {
    if sales == [] then 0.0
    else SalesOf(sales[..|sales| - 1], id) + if sales[|sales| - 1].clientId == id then sales[|sales| - 1].value else 0.0
  }

  function Lookup(entries: seq<Entry>, id: string): real {
    if entries == [] then 0.0 else if entries[0].clientId == id then entries[0].revenue else Lookup(entries[1..], id)
  }

  lemma {:induction false} AddRevenueAdds(entries: seq<Entry>, s: Sale, id: string)
    ensures Revenue(AddRevenue(entries, s)) == Revenue(entries) + s.value
    ensures Lookup(AddRevenue(entries, s), id) == Lookup(entries, id) + if id == s.clientId then s.value else 0.0
  {
    if entries != [] && entries[0].clientId != s.clientId {
      AddRevenueAdds(entries[1..], s, id);
    }
  }

  /** Grouping by client loses nothing: totals agree, client by client and overall. */
  lemma {:induction false} GroupingConserves(sales: seq<Sale>, id: string)
    ensures Revenue(RevenueByClient(sales)) == SalesTotal(sales)
    ensures Lookup(RevenueByClient(sales), id) == SalesOf(sales, id)
  {
    if sales != [] {
      GroupingConserves(sales[..|sales| - 1], id);
      AddRevenueAdds(RevenueByClient(sales[..|sales| - 1]), sales[|sales| - 1], id);
    }
  }

  // ----- The ABC cut -----

  function Descending(): (Entry, Entry) -> bool {
    (a: Entry, b: Entry) => a.revenue >= b.revenue
  }

  /** `Math.ceil(n * k / 10)`. */
  function CeilTenths(n: nat, k: nat): nat {
    (n * k + 9) / 10
  }

  datatype Class = Class(clients: nat, revenue: real)

  datatype Abc = Abc(a: Class, b: Class, c: Class)

  /** The class of rank `index` among `n` revenue-bearing clients. */
  function AddTo(abc: Abc, index: nat, n: nat, revenue: real): Abc {
    if index < CeilTenths(n, 2) then abc.(a := Class(abc.a.clients + 1, abc.a.revenue + revenue))
    else if index < CeilTenths(n, 5) then abc.(b := Class(abc.b.clients + 1, abc.b.revenue + revenue))
    else abc.(c := Class(abc.c.clients + 1, abc.c.revenue + revenue))
  }

  function Min(a: nat, b: nat): nat {
    if a < b then a else b
  }

  /** After the first `i` ranks. */
  ghost function CutAt(sorted: seq<Entry>, i: nat): Abc
    requires i <= |sorted|
  {
    var n := |sorted|;
    var x, y := Min(i, CeilTenths(n, 2)), Min(i, CeilTenths(n, 5));
    Cuts(n);
    Abc(Class(x, Revenue(sorted[..x])), Class(y - x, Revenue(sorted[x..y])), Class(i - y, Revenue(sorted[y..i])))
  }

  lemma Cuts(n: nat)
    ensures CeilTenths(n, 2) <= CeilTenths(n, 5) <= n
    ensures 5 * CeilTenths(n, 2) >= n && 2 * CeilTenths(n, 5) >= n
    ensures 5 * CeilTenths(n, 2) < n + 5 && 2 * CeilTenths(n, 5) < n + 2
  {
  }

  lemma {:induction false} RevenueAppend(s: seq<Entry>, t: seq<Entry>)
    ensures Revenue(s + t) == Revenue(s) + Revenue(t)
  {
    if s == [] {
      assert s + t == t;
    } else {
      RevenueAppend(s[1..], t);
      assert (s + t)[1..] == s[1..] + t;
    }
  }

  lemma CutStep(sorted: seq<Entry>, i: nat)
    requires i < |sorted|
    ensures CutAt(sorted, i + 1) == AddTo(CutAt(sorted, i), i, |sorted|, sorted[i].revenue)
  {
    var n := |sorted|;
    var xa, yb := CeilTenths(n, 2), CeilTenths(n, 5);
    Cuts(n);
    hide CeilTenths, Revenue;
    if i < xa {
      SliceStep(sorted, 0, i);
      assert sorted[i..i] == sorted[i + 1..i + 1];
    } else if i < yb {
      SliceStep(sorted, xa, i);
      assert sorted[i..i] == sorted[i + 1..i + 1];
    } else {
      SliceStep(sorted, yb, i);
    }
  }

  lemma SliceStep(s: seq<Entry>, a: nat, i: nat)
    requires a <= i < |s|
    ensures Revenue(s[a..i + 1]) == Revenue(s[a..i]) + s[i].revenue
  {
    assert s[a..i + 1] == s[a..i] + [s[i]];
    RevenueAppend(s[a..i], [s[i]]);
  }

  method AbcCurve(clients: nat, sales: seq<Sale>) returns (abc: Abc, totalRevenue: real)
    ensures var sorted := Sort(Descending(), RevenueByClient(sales));
            && abc == CutAt(sorted, |sorted|).(c := Class(CutAt(sorted, |sorted|).c.clients
                                                          + (if clients > |sorted| then clients - |sorted| else 0),
                                                          CutAt(sorted, |sorted|).c.revenue))
            && totalRevenue == Revenue(sorted)
    ensures var n := |RevenueByClient(sales)|;
            abc.a.clients + abc.b.clients + abc.c.clients == (if clients > n then clients else n)
    ensures abc.a.revenue + abc.b.revenue + abc.c.revenue == totalRevenue == SalesTotal(sales)
  {
    AbcIsAFairCut(sales);
    RevenueSorted(Descending(), RevenueByClient(sales));
    GroupingConserves(sales, "");
    hide AddTo, CutAt, Sort, Revenue, SalesTotal, CeilTenths;
    var revenueByClient: seq<Entry> := [];
    for i := 0 to |sales|
      invariant revenueByClient == RevenueByClient(sales[..i])
    {
      assert sales[..i + 1][..i] == sales[..i];
      revenueByClient := AddRevenue(revenueByClient, sales[i]);
    }
    assert sales[..|sales|] == sales;
    var sorted := Sort(Descending(), revenueByClient);
    totalRevenue := Revenue(sorted);
    abc := Abc(Class(0, 0.0), Class(0, 0.0), Class(0, 0.0));
    CutZero(sorted);
    for index := 0 to |sorted|
      invariant abc == CutAt(sorted, index)
    {
      CutStep(sorted, index);
      abc := AddTo(abc, index, |sorted|, sorted[index].revenue);
    }
    if clients > |sorted| {
      abc := abc.(c := Class(abc.c.clients + clients - |sorted|, abc.c.revenue));
    }
  }

  lemma CutZero(sorted: seq<Entry>)
    ensures CutAt(sorted, 0) == Abc(Class(0, 0.0), Class(0, 0.0), Class(0, 0.0))
  {
  }

  ghost predicate EarnsNoLess(s: seq<Entry>, i: int, j: int) {
    0 <= i < j < |s| ==> s[i].revenue >= s[j].revenue
  }

  ghost predicate Ranked(s: seq<Entry>) {
    forall i, j :: EarnsNoLess(s, i, j)
  }

  /** A holds the best fifth rounded up, A and B the best half rounded up; the three revenues add up to the
      sales; and nobody in a lower class earned more than anybody in a higher one. */
  lemma AbcIsAFairCut(sales: seq<Sale>)
    ensures var entries := RevenueByClient(sales);
            var sorted := Sort(Descending(), entries);
            var n, cut := |entries|, CutAt(sorted, |sorted|);
            && cut.a.clients == CeilTenths(n, 2) && cut.a.clients + cut.b.clients == CeilTenths(n, 5)
            && cut.a.clients + cut.b.clients + cut.c.clients == n
            && cut.a.revenue + cut.b.revenue + cut.c.revenue == SalesTotal(sales)
    ensures Ranked(Sort(Descending(), RevenueByClient(sales)))
  {
    var entries := RevenueByClient(sales);
    var sorted := Sort(Descending(), entries);
    var n := |sorted|;
    var x, y := CeilTenths(n, 2), CeilTenths(n, 5);
    Cuts(n);
    hide CeilTenths, Revenue, RevenueByClient, Sort;
    SortSorted(Descending(), entries);
    forall i, j ensures EarnsNoLess(sorted, i, j) {
      assert 0 <= i < j < |sorted| ==> Descending()(sorted[i], sorted[j]);
    }
    RevenueSorted(Descending(), entries);
    GroupingConserves(sales, "");
    ThreeParts(sorted, x, y);
  }

  lemma ThreeParts(s: seq<Entry>, x: nat, y: nat)
    requires x <= y <= |s|
    ensures Revenue(s) == Revenue(s[..x]) + Revenue(s[x..y]) + Revenue(s[y..|s|])
  {
    hide Revenue;
    assert s == s[..x] + s[x..y] + s[y..|s|];
    RevenueAppend(s[..x] + s[x..y], s[y..|s|]);
    RevenueAppend(s[..x], s[x..y]);
  }

  lemma {:induction false} RevenueInsert(le: (Entry, Entry) -> bool, x: Entry, s: seq<Entry>)
    ensures Revenue(Insert(le, x, s)) == x.revenue + Revenue(s)
  {
    if s != [] && !le(x, s[0]) {
      RevenueInsert(le, x, s[1..]);
    }
  }

  lemma {:induction false} RevenueSorted(le: (Entry, Entry) -> bool, s: seq<Entry>)
    ensures Revenue(Sort(le, s)) == Revenue(s)
  {
    if s != [] {
      RevenueSorted(le, s[1..]);
      RevenueInsert(le, s[0], Sort(le, s[1..]));
    }
  }

  // ----- Share of the best -----

  /** `heads` clients averaging at least (at most) `m`. */
  predicate AtLeast(total: real, heads: nat, m: real) {
    total >= heads as real * m
  }

  predicate AtMost(total: real, heads: nat, m: real) {
    total <= heads as real * m
  }

  lemma {:induction false} RevenueBounds(s: seq<Entry>, m: real)
    ensures (forall i | 0 <= i < |s| :: s[i].revenue >= m) ==> AtLeast(Revenue(s), |s|, m)
    ensures (forall i | 0 <= i < |s| :: s[i].revenue <= m) ==> AtMost(Revenue(s), |s|, m)
  {
    if s != [] {
      RevenueBounds(s[1..], m);
      assert |s| as real * m == (|s| - 1) as real * m + m;
    }
  }

  /** `part / total >= k / n`, without dividing. */
  predicate HoldsShare(part: real, k: nat, total: real, n: nat) {
    part * n as real >= total * k as real
  }

  /** The best `k` of `n` hold at least `k / n` of the revenue: class A never holds less than its share of heads. */
  lemma BestHoldTheirShare(sorted: seq<Entry>, k: nat)
    requires 0 < k <= |sorted| && Ranked(sorted)
    ensures HoldsShare(Revenue(sorted[..k]), k, Revenue(sorted), |sorted|)
  {
    hide Revenue, AtLeast, AtMost, HoldsShare;
    var m := sorted[k - 1].revenue;
    var head, tail := sorted[..k], sorted[k..];
    assert sorted == head + tail;
    RevenueAppend(head, tail);
    forall i | 0 <= i < |head| ensures head[i].revenue >= m {
      assert head[i] == sorted[i] && EarnsNoLess(sorted, i, k - 1);
    }
    forall i | 0 <= i < |tail| ensures tail[i].revenue <= m {
      assert tail[i] == sorted[k + i] && EarnsNoLess(sorted, k - 1, k + i);
    }
    RevenueBounds(head, m);
    RevenueBounds(tail, m);
    Shares(Revenue(head), Revenue(tail), k, |sorted| - k, m);
  }

  lemma Shares(h: real, t: real, k: nat, r: nat, m: real)
    requires AtLeast(h, k, m) && AtMost(t, r, m)
    ensures HoldsShare(h, k, h + t, k + r)
  {
    var x, y := k as real, r as real;
    Scale(x * m, h, y);
    Scale(t, y * m, x);
    assert x * m * y == y * m * x;
    assert (k + r) as real == x + y;
    assert h * (x + y) == h * x + h * y;
    assert (h + t) * x == h * x + t * x;
  }

  lemma Scale(a: real, b: real, f: real)
    requires a <= b && f >= 0.0
    ensures a * f <= b * f
  {
  }

  // ----- The wallet -----

  datatype Won = Won(clientId: string, closedOn: int)

  /** `lastSaleByClient`: the latest close of each client with a won opportunity. */
  ghost predicate LatestOf(won: seq<Won>, id: string, last: map<string, int>) {
    && (id in last <==> exists w :: w in won && w.clientId == id)
    && (id in last ==> (exists w :: w in won && w.clientId == id && w.closedOn == last[id])
                       && forall w | w in won && w.clientId == id :: w.closedOn <= last[id])
  }

  method LastSaleByClient(won: seq<Won>) returns (last: map<string, int>)
    ensures forall id :: LatestOf(won, id, last)
  {
    last := map[];
    for i := 0 to |won|
      invariant forall id :: LatestOf(won[..i], id, last)
    {
      ghost var before := last;
      var o := won[i];
      if o.clientId !in last || o.closedOn > last[o.clientId] {
        last := last[o.clientId := o.closedOn];
      }
      ghost var seen := won[..i + 1];
      forall id ensures LatestOf(seen, id, last) {
        assert LatestOf(won[..i], id, before);
        LatestStep(won, i, id, before, last);
      }
    }
    assert won[..|won|] == won;
  }

  lemma LatestStep(won: seq<Won>, i: nat, id: string, before: map<string, int>, after: map<string, int>)
    requires i < |won| && LatestOf(won[..i], id, before)
    requires after == if won[i].clientId !in before || won[i].closedOn > before[won[i].clientId]
                      then before[won[i].clientId := won[i].closedOn] else before
    ensures LatestOf(won[..i + 1], id, after)
  {
    assert won[..i + 1] == won[..i] + [won[i]];
    assert forall w :: w in won[..i + 1] <==> w in won[..i] || w == won[i];
  }

  datatype Recency = Active | InactiveRecent | InactiveOld

  /** Whole days since the last sale, at the end of the month. */
  function RecencyOf(last: map<string, int>, end: int, id: string): Recency {
    if id !in last then InactiveOld
    else
      var days := (end - last[id]) / 86_400_000;
      if days <= 30 then Active else if days <= 90 then InactiveRecent else InactiveOld
  }

  function Count(last: map<string, int>, end: int, clients: seq<string>, r: Recency): nat {
    if clients == [] then 0
    else Count(last, end, clients[..|clients| - 1], r) + if RecencyOf(last, end, clients[|clients| - 1]) == r then 1
      else 0
  }

  method WalletStatus(clients: seq<string>, last: map<string, int>, end: int)
    returns (active: nat, inactiveRecent: nat, inactiveOld: nat)
    ensures active == Count(last, end, clients, Active)
    ensures inactiveRecent == Count(last, end, clients, InactiveRecent)
    ensures inactiveOld == Count(last, end, clients, InactiveOld)
    ensures active + inactiveRecent + inactiveOld == |clients|
  {
    active, inactiveRecent, inactiveOld := 0, 0, 0;
    for i := 0 to |clients|
      invariant active == Count(last, end, clients[..i], Active)
      invariant inactiveRecent == Count(last, end, clients[..i], InactiveRecent)
      invariant inactiveOld == Count(last, end, clients[..i], InactiveOld)
      invariant active + inactiveRecent + inactiveOld == i
    {
      assert clients[..i + 1][..i] == clients[..i];
      if clients[i] !in last {
        inactiveOld := inactiveOld + 1;
      } else {
        var diffDays := (end - last[clients[i]]) / 86_400_000;
        if diffDays <= 30 {
          active := active + 1;
        } else if diffDays <= 90 {
          inactiveRecent := inactiveRecent + 1;
        } else {
          inactiveOld := inactiveOld + 1;
        }
      }
    }
    assert clients[..|clients|] == clients;
  }

  /** Less than 31 whole days since the last sale; or at least 31 and less than 91. */
  predicate SoldLately(last: map<string, int>, end: int, id: string) {
    id in last && end - last[id] < 31 * 86_400_000
  }

  predicate SoldBefore(last: map<string, int>, end: int, id: string) {
    id in last && 31 * 86_400_000 <= end - last[id] < 91 * 86_400_000
  }

  lemma RecencyLimits(last: map<string, int>, end: int, id: string)
    ensures RecencyOf(last, end, id) == Active <==> SoldLately(last, end, id)
    ensures RecencyOf(last, end, id) == InactiveRecent <==> SoldBefore(last, end, id)
  {
  }

  function Lately(last: map<string, int>, end: int): string -> bool {
    id => SoldLately(last, end, id)
  }

  function Before(last: map<string, int>, end: int): string -> bool {
    id => SoldBefore(last, end, id)
  }

  function Neither(last: map<string, int>, end: int): string -> bool {
    id => !SoldLately(last, end, id) && !SoldBefore(last, end, id)
  }

  /** The places of the list where `p` holds. */
  function Where(clients: seq<string>, p: string -> bool): set<nat> {
    set i: nat | i < |clients| && p(clients[i])
  }

  /** The three counts are those of the clients whose last sale is less than 31 days old at the end of the month, from
      31 to less than 91 days old, and older or missing. */
  lemma {:induction false} WalletCounts(clients: seq<string>, last: map<string, int>, end: int)
    ensures Count(last, end, clients, Active) == |Where(clients, Lately(last, end))|
    ensures Count(last, end, clients, InactiveRecent) == |Where(clients, Before(last, end))|
    ensures Count(last, end, clients, InactiveOld) == |Where(clients, Neither(last, end))|
  {
    if clients == [] {
      assert forall p :: Where(clients, p) == {};
    } else {
      var n := |clients| - 1;
      WalletCounts(clients[..n], last, end);
      RecencyLimits(last, end, clients[n]);
      OneMore(clients, Lately(last, end));
      OneMore(clients, Before(last, end));
      OneMore(clients, Neither(last, end));
      hide RecencyOf, SoldLately, SoldBefore, Where;
    }
  }

  lemma OneMore(clients: seq<string>, p: string -> bool)
    requires clients != []
    ensures var n := |clients| - 1; |Where(clients, p)| == |Where(clients[..n], p)| + (if p(clients[n]) then 1 else 0)
  {
    var n := |clients| - 1;
    assert Where(clients, p) == if p(clients[n]) then Where(clients[..n], p) + {n} else Where(clients[..n], p);
  }
}
