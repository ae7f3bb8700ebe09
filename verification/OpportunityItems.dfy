/** Order items of an opportunity (`apps/api/src/routes/crudRoutes.ts`): their money, in exact cents, and the
    opportunity value kept in step with them. */
module OpportunityItems {
  import opened Text
  import opened Grouping

  datatype DiscountType = Value | Percent

  /** `Number(x.toFixed(2))` for an exact amount, counted in cents: the nearest cent, halves upwards. */
  function Cents(x: real): int {
    (100.0 * x + 0.5).Floor
  }

  function Amount(cents: int): real {
    cents as real / 100.0
  }

  datatype Totals =
    | Totals(gross: int, discount: int, net: int)
    | PercentOutOfRange
    | DiscountAboveGross
    | NegativeNet

  function Max(a: real, b: real): real {
    if a < b then b else a
  }

  function Min(a: real, b: real): real {
    if b < a then b else a
  }

  function Times(a: real, b: real): real {
    a * b
  }

  function RawDiscount(gross: int, kind: DiscountType, discountValue: real): real {
    if kind == Percent then Times(Amount(gross), discountValue / 100.0) else discountValue
  }

  /** `computeOpportunityItemTotals`. */
  function ComputeTotals(quantity: real, unitPrice: real, kind: DiscountType, discountValue: real): Totals {
    var gross := Cents(Times(quantity, unitPrice));
    if kind == Percent && (discountValue < 0.0 || discountValue > 100.0) then PercentOutOfRange
    else if kind == Value && (discountValue < 0.0 || discountValue > Amount(gross)) then DiscountAboveGross
    else
      var discount := Cents(Max(0.0, Min(Amount(gross), RawDiscount(gross, kind, discountValue))));
      var net := Cents(Amount(gross - discount));
      if net < 0 then NegativeNet else Totals(gross, discount, net)
  }

  // ----- The money of one item -----

  /** The only whole number of cents at most half a cent away, the upper one of two. */
  lemma CentsIsNearest(x: real, c: int)
    ensures c == Cents(x) <==> -0.5 <= 100.0 * x - c as real < 0.5
  {
  }

  lemma CentsMonotone(x: real, y: real)
    requires x <= y
    ensures Cents(x) <= Cents(y)
  {
  }

  lemma CentsOfAmount(c: int)
    ensures Cents(Amount(c)) == c
  {
  }

  lemma TimesNonnegative(a: real, b: real)
    requires 0.0 <= a && 0.0 <= b
    ensures 0.0 <= Times(a, b)
  {
  }

  lemma PartOf(a: real, share: real)
    requires 0.0 <= a && 0.0 <= share <= 1.0
    ensures 0.0 <= Times(a, share) <= a
  {
    assert a * share <= a * 1.0;
  }

  lemma RawDiscountInRange(gross: int, kind: DiscountType, discountValue: real)
    requires 0 <= gross && 0.0 <= discountValue
    requires kind == Percent ==> discountValue <= 100.0
    requires kind == Value ==> discountValue <= Amount(gross)
    ensures 0.0 <= RawDiscount(gross, kind, discountValue) <= Amount(gross)
  {
    if kind == Percent {
      PartOf(Amount(gross), discountValue / 100.0);
    }
  }

  /** For every quantity and price the schema lets through: the call fails exactly when a percentage exceeds 100 or a
      discount in money exceeds the gross total, and otherwise discount and net are both between zero and gross and
      add up to it to the cent. The throw for a negative net total is never reached. */
  lemma TotalsBalance(quantity: real, unitPrice: real, kind: DiscountType, discountValue: real)
    requires 0.0 <= quantity && 0.0 <= unitPrice && 0.0 <= discountValue
    ensures var gross := Cents(Times(quantity, unitPrice));
            var t := ComputeTotals(quantity, unitPrice, kind, discountValue);
            && 0 <= gross
            && (t.PercentOutOfRange? <==> kind == Percent && discountValue > 100.0)
            && (t.DiscountAboveGross? <==> kind == Value && discountValue > Amount(gross))
            && !t.NegativeNet?
            && (t.Totals? ==>
                  && t.gross == gross && 0 <= t.discount <= t.gross && t.net + t.discount == t.gross && 0 <= t.net
                  && t.discount == Cents(RawDiscount(gross, kind, discountValue)))
  {
    var gross := Cents(Times(quantity, unitPrice));
    TimesNonnegative(quantity, unitPrice);
    CentsMonotone(0.0, Times(quantity, unitPrice));
    assert Cents(0.0) == 0;
    hide Times, Cents, Amount;
    if (kind == Percent ==> discountValue <= 100.0) && (kind == Value ==> discountValue <= Amount(gross)) {
      RawDiscountInRange(gross, kind, discountValue);
      var raw := RawDiscount(gross, kind, discountValue);
      CentsMonotone(0.0, raw);
      CentsMonotone(raw, Amount(gross));
      CentsOfAmount(gross);
      CentsOfAmount(gross - Cents(raw));
      hide RawDiscount;
      assert Max(0.0, Min(Amount(gross), raw)) == raw;
    }
  }

  /** A larger percentage never leaves more to pay. */
  lemma MorePercentLessNet(quantity: real, unitPrice: real, a: real, b: real)
    requires 0.0 <= quantity && 0.0 <= unitPrice && 0.0 <= a <= b <= 100.0
    ensures ComputeTotals(quantity, unitPrice, Percent, b).net <= ComputeTotals(quantity, unitPrice, Percent, a).net
  {
    TotalsBalance(quantity, unitPrice, Percent, a);
    TotalsBalance(quantity, unitPrice, Percent, b);
    var gross := Cents(Times(quantity, unitPrice));
    SharesMonotone(Amount(gross), a / 100.0, b / 100.0);
    CentsMonotone(RawDiscount(gross, Percent, a), RawDiscount(gross, Percent, b));
    hide Times, Cents, Amount, ComputeTotals;
  }

  lemma SharesMonotone(x: real, a: real, b: real)
    requires a <= b
    ensures 0.0 <= x ==> Times(x, a) <= Times(x, b)
  {
  }

  // ----- Items and opportunities -----

  /** What an item keeps of its product, and its notes. */
  datatype Snapshot = Snapshot(code: string, classCode: string, name: string, unit: Option<string>,
                               notes: Option<string>)

  datatype Item = Item(id: string, opportunityId: string, productId: Option<string>, line: int, quantity: real,
                       unitPrice: real, kind: DiscountType, discountValue: real, gross: int, discount: int, net: int,
                       snapshot: Snapshot)

  datatype Opportunity = Opportunity(owner: string, value: real)

  datatype State = State(opportunities: map<string, Opportunity>, items: seq<Item>)

  /** A request body; for an update every field may be missing. */
  datatype Payload = Payload(productId: Option<string>, line: Option<int>, quantity: Option<real>,
                             unitPrice: Option<real>,
                             kind: Option<DiscountType>, discountValue: Option<real>, texts: Texts)

  /** The texts of a request body. */
  datatype Texts = Texts(code: Option<string>, classCode: Option<string>, name: Option<string>, unit: Option<string>,
                         notes: Option<string>)

  datatype Product = Product(code: string, classCode: string, name: string, unit: Option<string>)

  datatype Reply = Done(status: nat) | Refused(status: nat)

  /** What a request depends on: the seller it is limited to, the known products, the key for a new row, and whether
      the process dies between the write and the recalculation, which share no transaction. */
  datatype Env = Env(seller: Option<string>, products: map<string, Product>, newId: string, dies: bool)

  predicate Parses(p: Payload) {
    && (p.line.Some? ==> p.line.value > 0)
    && (p.quantity.Some? ==> p.quantity.value > 0.0)
    && (p.unitPrice.Some? ==> p.unitPrice.value >= 0.0)
    && (p.discountValue.Some? ==> p.discountValue.value >= 0.0)
    && TextsParse(p.texts)
  }

  predicate Fits(text: Option<string>, least: nat, most: nat) {
    text.Some? ==> least <= |Trim(text.value)| <= most
  }

  predicate TextsParse(t: Texts) {
    && Fits(t.code, 1, 60) && Fits(t.classCode, 1, 60) && Fits(t.name, 1, 240) && Fits(t.unit, 0, 30)
    && (t.notes.Some? ==> |t.notes.value| <= 2000)
  }

  /** The schema trims what it lets through. */
  function Parsed(text: Option<string>): Option<string> {
    if text.Some? then Some(Trim(text.value)) else None
  }

  function Or<T>(a: Option<T>, b: T): T {
    if a.Some? then a.value else b
  }

  predicate Visible(s: State, id: string, env: Env) {
    id in s.opportunities && (env.seller.None? || s.opportunities[id].owner == env.seller.value)
  }

  predicate KnownProduct(productId: Option<string>, env: Env) {
    productId.Some? && productId.value != "" ==> productId.value in env.products
  }

  function ProductOf(productId: Option<string>, env: Env): Option<Product> {
    if productId.Some? && productId.value != "" && productId.value in env.products
      then Some(env.products[productId.value]) else None
  }

  function LineText(line: int): string {
    if line >= 0 then NatText(line) else "-" + NatText(-line)
  }

  /** `a || b || fallback`. */
  function FirstText(a: Option<string>, b: Option<string>, fallback: string): string {
    TextOr(a, TextOr(b, fallback))
  }

  function NewSnapshot(t: Texts, product: Option<Product>, line: int): Snapshot {
    var source := if product.Some? then product.value else Product("", "", "", None);
    Snapshot(FirstText(Parsed(t.code), Some(source.code), "manual"),
             FirstText(Parsed(t.classCode), Some(source.classCode), LineText(line)),
             FirstText(Parsed(t.name), Some(source.name), "Item sem produto"),
             OrNull(OrText(Parsed(t.unit), source.unit)), OrNull(t.notes))
  }

  /** `a ?? b ?? c`, with `b` a column of the product. */
  function ChangedSnapshot(s: Snapshot, t: Texts, product: Option<Product>): Snapshot {
    var current := if product.Some? then product.value else Product(s.code, s.classCode, s.name, s.unit);
    Snapshot(Or(Parsed(t.code), current.code), Or(Parsed(t.classCode), current.classCode),
             Or(Parsed(t.name), current.name),
             if t.unit.Some? then Parsed(t.unit) else if current.unit.Some? then current.unit else s.unit,
             if t.notes.None? then s.notes else OrNull(t.notes))
  }

  /** An update that names none of these texts does not leave them alone: they are taken from the product again. The
      snapshot stays as it was exactly when there is no product or the product still reads the same. */
  lemma SnapshotFollowsProduct(s: Snapshot, t: Texts, product: Option<Product>)
    requires t.code.None? && t.classCode.None? && t.name.None? && t.unit.None? && t.notes.None?
    ensures ChangedSnapshot(s, t, product) == s
            <==> product.None?
                 || (s.code == product.value.code && s.classCode == product.value.classCode
                     && s.name == product.value.name
                     && (product.value.unit.None? || s.unit == product.value.unit))
  {
  }

  function OrNull(a: Option<string>): Option<string> {
    if a == Some("") then None else a
  }

  /** `_sum: { netTotal: true }` over the items of one opportunity. */
  function NetSum(items: seq<Item>, id: string): int {
    if items == [] then 0
    else
      NetSum(items[..|items| - 1], id)
      + (if items[|items| - 1].opportunityId == id then items[|items| - 1].net else 0)
  }

  /** `_max: { lineNumber: true }`, or 0. */
  function MaxLine(items: seq<Item>, id: string): int {
    if items == [] then 0
    else
      var m, last := MaxLine(items[..|items| - 1], id), items[|items| - 1];
      if last.opportunityId == id && last.line > m then last.line else m
  }

  /** `recalculateOpportunityValueFromItems`, unless the process died first. */
  function Recalculated(s: State, id: string, env: Env): State
    requires id in s.opportunities
  {
    if env.dies then s
    else s.(opportunities := s.opportunities[id := s.opportunities[id].(value := Amount(NetSum(s.items, id)))])
  }

  /** The unique index on opportunity and line. */
  predicate LineTaken(items: seq<Item>, id: string, line: int, except: string) {
    exists i | i in items :: i.opportunityId == id && i.line == line && i.id != except
  }

  predicate IdTaken(items: seq<Item>, itemId: string) {
    exists i | i in items :: i.id == itemId
  }

  function CreateStep(s: State, id: string, p: Payload, env: Env): (State, Reply) {
    if !Visible(s, id, env) then (s, Refused(404))
    else if p.quantity.None? || p.unitPrice.None? || !Parses(p) then (s, Refused(400))
    else if !KnownProduct(p.productId, env) then (s, Refused(404))
    else
      var kind, discountValue := Or(p.kind, Value), Or(p.discountValue, 0.0);
      var t := ComputeTotals(p.quantity.value, p.unitPrice.value, kind, discountValue);
      if !t.Totals? then (s, Refused(400))
      else
        var line := Or(p.line, MaxLine(s.items, id) + 1);
        if LineTaken(s.items, id, line, env.newId) || IdTaken(s.items, env.newId) then (s, Refused(500))
        else
          var item :=
            Item(env.newId, id, OrNull(p.productId), line, p.quantity.value, p.unitPrice.value, kind, discountValue,
                           t.gross, t.discount, t.net, NewSnapshot(p.texts, ProductOf(p.productId, env), line));
          (Recalculated(s.(items := s.items + [item]), id, env), Done(201))
  }

  function FindItem(items: seq<Item>, id: string, itemId: string): (r: Option<Item>)
    ensures r.Some? ==> r.value in items && r.value.id == itemId && r.value.opportunityId == id
    ensures r.None? ==> forall i | i in items :: !(i.id == itemId && i.opportunityId == id)
  {
    if items == [] then None
    else if items[0].id == itemId && items[0].opportunityId == id then Some(items[0])
    else FindItem(items[1..], id, itemId)
  }

  function Replaced(items: seq<Item>, x: Item): (r: seq<Item>)
    ensures |r| == |items| && forall i | 0 <= i < |r| :: r[i] == if items[i].id == x.id then x else items[i]
  {
    seq(|items|, i requires 0 <= i < |items| => if items[i].id == x.id then x else items[i])
  }

  function NextProduct(i: Item, p: Payload): Option<string> {
    if p.productId.Some? then p.productId else i.productId
  }

  function Changed(i: Item, p: Payload, t: Totals, env: Env): Item
    requires t.Totals?
  {
    i.(productId := OrNull(NextProduct(i, p)), line := Or(p.line, i.line),
       quantity := Or(p.quantity, i.quantity), unitPrice := Or(p.unitPrice, i.unitPrice), kind := Or(p.kind, i.kind),
       discountValue := Or(p.discountValue, i.discountValue), gross := t.gross, discount := t.discount, net := t.net,
       snapshot := ChangedSnapshot(i.snapshot, p.texts, ProductOf(NextProduct(i, p), env)))
  }

  function TotalsAfter(i: Item, p: Payload): Totals {
    ComputeTotals(Or(p.quantity, i.quantity), Or(p.unitPrice, i.unitPrice), Or(p.kind, i.kind),
                  Or(p.discountValue, i.discountValue))
  }

  function UpdateStep(s: State, id: string, itemId: string, p: Payload, env: Env): (State, Reply) {
    if !Visible(s, id, env) then (s, Refused(404))
    else
      var found := FindItem(s.items, id, itemId);
      if found.None? then (s, Refused(404))
      else if !Parses(p) then (s, Refused(400))
      else if !KnownProduct(NextProduct(found.value, p), env) then (s, Refused(404))
      else
        var t := TotalsAfter(found.value, p);
        if !t.Totals? then (s, Refused(400))
        else if LineTaken(s.items, id, Or(p.line, found.value.line), itemId) then (s, Refused(500))
        else (Recalculated(s.(items := Replaced(s.items, Changed(found.value, p, t, env))), id, env), Done(200))
  }

  function NotItem(itemId: string): Item -> bool {
    (i: Item) => i.id != itemId
  }

  function DeleteStep(s: State, id: string, itemId: string, env: Env): (State, Reply) {
    if !Visible(s, id, env) then (s, Refused(404))
    else if FindItem(s.items, id, itemId).None? then (s, Refused(404))
    else (Recalculated(s.(items := Filter(s.items, NotItem(itemId))), id, env), Done(204))
  }

  // ----- Runs -----

  /** The item routes, and the value typed in by hand through the opportunity itself. */
  datatype Op =
    | CreateItem(id: string, p: Payload, env: Env)
    | UpdateItem(id: string, itemId: string, p: Payload, env: Env)
    | DeleteItem(id: string, itemId: string, env: Env)
    | TypeValue(id: string, value: real)

  function Step(s: State, op: Op): (State, Reply) {
    match op
    case CreateItem(id, p, env) => CreateStep(s, id, p, env)
    case UpdateItem(id, itemId, p, env) => UpdateStep(s, id, itemId, p, env)
    case DeleteItem(id, itemId, env) => DeleteStep(s, id, itemId, env)
    case TypeValue(id, value) =>
      if id !in s.opportunities then (s, Refused(404))
      else (s.(opportunities := s.opportunities[id := s.opportunities[id].(value := value)]), Done(200))
  }

  function Run(s: State, ops: seq<Op>): State {
    if ops == [] then s else Step(Run(s, ops[..|ops| - 1]), ops[|ops| - 1]).0
  }

  /** The value of the opportunity is the sum of its items' net totals. */
  predicate InStep(s: State, id: string) {
    id in s.opportunities && s.opportunities[id].value == Amount(NetSum(s.items, id))
  }

  // ----- What every item satisfies -----

  predicate Sound(i: Item) {
    && 0.0 <= i.quantity && 0.0 <= i.unitPrice && 0.0 <= i.discountValue && 0 < i.line
    && i.gross == Cents(Times(i.quantity, i.unitPrice))
    && 0 <= i.discount <= i.gross && i.net + i.discount == i.gross
    && i.discount == Cents(RawDiscount(i.gross, i.kind, i.discountValue))
  }

  predicate RowsApart(a: Item, b: Item) {
    a.id != b.id && (a.opportunityId == b.opportunityId ==> a.line != b.line)
  }

  ghost predicate AllApart(items: seq<Item>) {
    forall i, j | 0 <= i < j < |items| :: RowsApart(items[i], items[j])
  }

  /** The item table between requests: both keys unique, every item sound and on a known opportunity. */
  ghost predicate Kept(s: State) {
    && AllApart(s.items)
    && (forall i | i in s.items :: Sound(i) && i.opportunityId in s.opportunities)
  }

  lemma {:induction false} LinesBelowMax(items: seq<Item>, id: string, i: Item)
    requires i in items && i.opportunityId == id
    ensures i.line <= MaxLine(items, id)
  {
    var init := items[..|items| - 1];
    if i in init {
      LinesBelowMax(init, id, i);
    }
  }

  lemma {:induction false} MaxLineNonnegative(items: seq<Item>, id: string)
    ensures 0 <= MaxLine(items, id)
  {
    if items != [] {
      MaxLineNonnegative(items[..|items| - 1], id);
    }
  }

  /** A line number left to the route is always free. */
  lemma NextLineIsFree(items: seq<Item>, id: string, except: string)
    ensures !LineTaken(items, id, MaxLine(items, id) + 1, except)
  {
    forall i | i in items && i.opportunityId == id ensures i.line <= MaxLine(items, id) {
      LinesBelowMax(items, id, i);
    }
  }

  lemma {:induction false} NothingFiltered(items: seq<Item>, itemId: string)
    requires forall i | i in items :: i.id != itemId
    ensures Filter(items, NotItem(itemId)) == items
  {
    if items != [] {
      var init, last := items[..|items| - 1], items[|items| - 1];
      assert items == init + [last];
      assert forall i | i in init :: i in items;
      NothingFiltered(init, itemId);
      assert last in items && NotItem(itemId)(last);
    }
  }

  lemma NothingReplaced(items: seq<Item>, x: Item)
    requires forall i | i in items :: i.id != x.id
    ensures Replaced(items, x) == items
  {
    assert forall i | 0 <= i < |items| :: items[i] in items;
  }

  /** The last row against the rows before it. */
  lemma LastApart(items: seq<Item>)
    requires AllApart(items) && items != []
    ensures var init, last := items[..|items| - 1], items[|items| - 1];
            AllApart(init) && forall i | i in init :: RowsApart(i, last)
  {
    var init := items[..|items| - 1];
    forall i | i in init ensures RowsApart(i, items[|items| - 1]) {
      var k :| 0 <= k < |init| && init[k] == i;
      assert RowsApart(items[k], items[|items| - 1]);
    }
  }

  lemma {:induction false} ReplacedSum(items: seq<Item>, i: Item, x: Item, id: string)
    requires AllApart(items) && i in items && x.id == i.id && x.opportunityId == i.opportunityId
    ensures NetSum(Replaced(items, x), id) == NetSum(items, id) + (if i.opportunityId == id then x.net - i.net else 0)
  {
    var init, last := items[..|items| - 1], items[|items| - 1];
    LastApart(items);
    assert Replaced(items, x)[..|init|] == Replaced(init, x);
    if i in init {
      ReplacedSum(init, i, x, id);
    } else {
      NothingReplaced(init, x);
    }
  }

  lemma {:induction false} FilteredSum(items: seq<Item>, i: Item, id: string)
    requires AllApart(items) && i in items
    ensures NetSum(Filter(items, NotItem(i.id)), id) == NetSum(items, id) - (if i.opportunityId == id then i.net else 0)
  {
    var init, last := items[..|items| - 1], items[|items| - 1];
    LastApart(items);
    if i in init {
      FilteredSum(init, i, id);
      assert NotItem(i.id)(last);
      var kept := Filter(init, NotItem(i.id));
      assert (kept + [last])[..|kept|] == kept;
    } else {
      NothingFiltered(init, i.id);
    }
  }

  lemma AppendedSum(items: seq<Item>, x: Item, id: string)
    ensures NetSum(items + [x], id) == NetSum(items, id) + (if x.opportunityId == id then x.net else 0)
  {
    assert (items + [x])[..|items|] == items;
  }

  /** By how much a successful request changes the sum of the items of `id`. */
  function Delta(s: State, op: Op): int {
    match op
    case CreateItem(id, p, env) =>
      (match ComputeTotals(Or(p.quantity, 0.0), Or(p.unitPrice, 0.0), Or(p.kind, Value), Or(p.discountValue, 0.0))
       case Totals(_, _, net) => net
       case _ => 0)
    case UpdateItem(id, itemId, p, env) =>
      (match FindItem(s.items, id, itemId)
       case Some(i) => (match TotalsAfter(i, p) case Totals(_, _, net) => net - i.net case _ => 0)
       case None => 0)
    case DeleteItem(id, itemId, env) => (match FindItem(s.items, id, itemId) case Some(i) => -i.net case None => 0)
    case TypeValue(id, value) => 0
  }

  /** A request changes the sum of its own opportunity by the net of the item added, changed or removed, and the sum
      of no other; one that is refused changes nothing at all. */
  lemma SumsFollowItems(s: State, op: Op, id: string)
    requires Kept(s)
    ensures var (t, reply) := Step(s, op);
            && (reply.Refused? ==> t == s)
            && (reply.Done? ==> NetSum(t.items, id) == NetSum(s.items, id) + (if op.id == id then Delta(s, op) else 0))
  {
    hide ComputeTotals, NetSum, Filter, Replaced, RowsApart, MaxLine, LineTaken;
    if Step(s, op).1.Done? {
      match op
      case CreateItem(o, p, env) =>
        var t := Step(s, op).0;
        AppendedSum(s.items, t.items[|s.items|], id);
      case UpdateItem(o, itemId, p, env) =>
        var i := FindItem(s.items, o, itemId).value;
        ReplacedSum(s.items, i, Changed(i, p, TotalsAfter(i, p), env), id);
      case DeleteItem(o, itemId, env) =>
        FilteredSum(s.items, FindItem(s.items, o, itemId).value, id);
      case TypeValue(_, _) =>
    }
  }

  // ----- The value and the items in step -----

  predicate Dies(op: Op) {
    match op
    case CreateItem(_, _, env) => env.dies
    case UpdateItem(_, _, _, env) => env.dies
    case DeleteItem(_, _, env) => env.dies
    case TypeValue(_, _) => false
  }

  /** After every item request that succeeds and runs to its end, the opportunity value is the sum of its items' net
      totals, whatever it was before. */
  lemma ItemRequestsBringInStep(s: State, op: Op)
    requires !op.TypeValue? && Step(s, op).1.Done? && !Dies(op)
    ensures InStep(Step(s, op).0, op.id)
  {
    hide ComputeTotals, NetSum, Filter, Replaced, MaxLine, LineTaken;
  }

  /** The two writes share no transaction: when the second is lost, the value stays in step exactly when the sum did
      not change. */
  lemma LostRecalculation(s: State, op: Op)
    requires Kept(s) && InStep(s, op.id) && Step(s, op).1.Done? && Dies(op)
    ensures InStep(Step(s, op).0, op.id) <==> Delta(s, op) == 0
  {
    SumsFollowItems(s, op, op.id);
    hide ComputeTotals, NetSum, Filter, Replaced, MaxLine, LineTaken, Kept, Delta;
    assert Step(s, op).0.opportunities == s.opportunities;
    AmountsDiffer(NetSum(s.items, op.id), NetSum(Step(s, op).0.items, op.id));
  }

  lemma AmountsDiffer(a: int, b: int)
    ensures Amount(a) == Amount(b) <==> a == b
  {
  }

  /** A value typed in by hand is in step exactly when it happens to be the sum. */
  lemma TypedValue(s: State, id: string, value: real)
    requires id in s.opportunities
    ensures InStep(Step(s, TypeValue(id, value)).0, id) <==> value == Amount(NetSum(s.items, id))
  {
    hide NetSum;
  }

  /** A request leaves every other opportunity's value and sum alone. */
  lemma OthersKeepStep(s: State, op: Op, id: string)
    requires Kept(s) && op.id != id
    ensures InStep(Step(s, op).0, id) <==> InStep(s, id)
  {
    SumsFollowItems(s, op, id);
    OtherValuesStay(s, op, id);
    hide Step, NetSum, Kept, Delta;
  }

  lemma OtherValuesStay(s: State, op: Op, id: string)
    requires op.id != id
    ensures var t := Step(s, op).0;
            (id in t.opportunities <==> id in s.opportunities)
            && (id in s.opportunities ==> t.opportunities[id] == s.opportunities[id])
  {
    hide ComputeTotals, NetSum, Filter, Replaced, MaxLine, LineTaken, FindItem;
  }

  lemma CreateKeeps(s: State, id: string, p: Payload, env: Env)
    requires Kept(s)
    ensures Kept(CreateStep(s, id, p, env).0)
  {
    hide ComputeTotals, MaxLine, Sound, NetSum;
    var t := CreateStep(s, id, p, env).0;
    if t != s {
      var x := t.items[|s.items|];
      var line := Or(p.line, MaxLine(s.items, id) + 1);
      MaxLineNonnegative(s.items, id);
      NewItemIsSound(p, x, line);
      assert t.items == s.items + [x];
      forall i | i in s.items ensures RowsApart(i, x) {
        assert !LineTaken(s.items, id, line, env.newId) && !IdTaken(s.items, env.newId);
      }
      AppendApart(s.items, x);
      hide AllApart, LineTaken, CreateStep;
      assert t.opportunities.Keys == s.opportunities.Keys;
    }
  }

  lemma AppendApart(items: seq<Item>, x: Item)
    requires AllApart(items) && forall i | i in items :: RowsApart(i, x)
    ensures AllApart(items + [x])
  {
    var after := items + [x];
    forall i, j | 0 <= i < j < |after| ensures RowsApart(after[i], after[j]) {
      assert i < |items| && after[i] in items;
    }
  }

  lemma NewItemIsSound(p: Payload, x: Item, line: int)
    requires Parses(p) && p.quantity.Some? && p.unitPrice.Some? && 0 < line == x.line
    requires x.quantity == p.quantity.value && x.unitPrice == p.unitPrice.value
    requires x.kind == Or(p.kind, Value) && x.discountValue == Or(p.discountValue, 0.0)
    requires ComputeTotals(x.quantity, x.unitPrice, x.kind, x.discountValue) == Totals(x.gross, x.discount, x.net)
    ensures Sound(x)
  {
    TotalsBalance(x.quantity, x.unitPrice, x.kind, x.discountValue);
    hide ComputeTotals, Cents, Times, RawDiscount;
  }

  lemma UpdateKeeps(s: State, id: string, itemId: string, p: Payload, env: Env)
    requires Kept(s)
    ensures Kept(UpdateStep(s, id, itemId, p, env).0)
  {
    hide ComputeTotals, Sound, NetSum, Replaced;
    if UpdateStep(s, id, itemId, p, env).1.Done? {
      var i := FindItem(s.items, id, itemId).value;
      var x := Changed(i, p, TotalsAfter(i, p), env);
      ChangedItemIsSound(i, p, env);
      ReplacedApart(s.items, i, x);
      ReplacedMembers(s.items, x);
      hide AllApart, LineTaken, FindItem;
      var t := UpdateStep(s, id, itemId, p, env).0;
      assert t.opportunities.Keys == s.opportunities.Keys && t.items == Replaced(s.items, x);
    }
  }

  lemma ReplacedMembers(items: seq<Item>, x: Item)
    ensures forall i | i in Replaced(items, x) :: i == x || i in items
  {
  }

  lemma ReplacedApart(items: seq<Item>, i: Item, x: Item)
    requires AllApart(items) && i in items && x.id == i.id && x.opportunityId == i.opportunityId
    requires !LineTaken(items, x.opportunityId, x.line, x.id)
    ensures AllApart(Replaced(items, x))
  {
    var after := Replaced(items, x);
    forall a, b | 0 <= a < b < |after| ensures RowsApart(after[a], after[b]) {
      assert RowsApart(items[a], items[b]);
      assert items[a] in items && items[b] in items;
    }
  }

  lemma ChangedItemIsSound(i: Item, p: Payload, env: Env)
    requires Sound(i) && Parses(p) && TotalsAfter(i, p).Totals?
    ensures Sound(Changed(i, p, TotalsAfter(i, p), env))
  {
    TotalsBalance(Or(p.quantity, i.quantity), Or(p.unitPrice, i.unitPrice), Or(p.kind, i.kind),
                  Or(p.discountValue, i.discountValue));
    hide ComputeTotals, Cents, Times, RawDiscount;
  }

  lemma {:induction false} FilterKeepsApart(items: seq<Item>, itemId: string)
    requires AllApart(items)
    ensures AllApart(Filter(items, NotItem(itemId)))
  {
    if items != [] {
      var init, last := items[..|items| - 1], items[|items| - 1];
      LastApart(items);
      FilterKeepsApart(init, itemId);
      hide RowsApart;
      if last.id != itemId {
        AppendApart(Filter(init, NotItem(itemId)), last);
      }
    }
  }

  lemma DeleteKeeps(s: State, id: string, itemId: string, env: Env)
    requires Kept(s)
    ensures Kept(DeleteStep(s, id, itemId, env).0)
  {
    FilterKeepsApart(s.items, itemId);
    hide Sound, NetSum, AllApart;
    assert DeleteStep(s, id, itemId, env).0.opportunities.Keys == s.opportunities.Keys;
  }

  lemma StepKeeps(s: State, op: Op)
    requires Kept(s)
    ensures Kept(Step(s, op).0)
  {
    match op
    case CreateItem(id, p, env) => CreateKeeps(s, id, p, env);
    case UpdateItem(id, itemId, p, env) => UpdateKeeps(s, id, itemId, p, env);
    case DeleteItem(id, itemId, env) => DeleteKeeps(s, id, itemId, env);
    case TypeValue(id, value) =>
      hide Sound, AllApart;
      assert Step(s, op).0.items == s.items;
  }

  /** The request types no value into `id` and does not lose its recalculation. */
  predicate Calm(op: Op, id: string) {
    !Dies(op) && (op.TypeValue? ==> op.id != id)
  }

  lemma CalmKeepsStep(s: State, op: Op, id: string)
    requires Kept(s) && InStep(s, id) && Calm(op, id)
    ensures InStep(Step(s, op).0, id)
  {
    hide Kept, InStep;
    if op.id != id {
      OthersKeepStep(s, op, id);
    } else if Step(s, op).1.Done? {
      ItemRequestsBringInStep(s, op);
    } else {
      SumsFollowItems(s, op, id);
    }
  }

  /** In every run an opportunity stays in step with its items from its first completed item request on, until a
      value is typed into it or a recalculation is lost; all along, every item's money adds up. */
  lemma {:induction false} RunsStayInStep(s: State, op: Op, rest: seq<Op>)
    requires Kept(s) && !op.TypeValue? && Step(s, op).1.Done? && !Dies(op)
    requires forall later | later in rest :: Calm(later, op.id)
    ensures var t := Run(Step(s, op).0, rest); Kept(t) && InStep(t, op.id)
  {
    hide Step, Kept, InStep, Calm;
    if rest == [] {
      StepKeeps(s, op);
      ItemRequestsBringInStep(s, op);
    } else {
      var init, last := rest[..|rest| - 1], rest[|rest| - 1];
      RunsStayInStep(s, op, init);
      StepKeeps(Run(Step(s, op).0, init), last);
      CalmKeepsStep(Run(Step(s, op).0, init), last, op.id);
    }
  }

  /** Removing the last item leaves the value at zero: what was typed in before the first item is not restored. */
  lemma EmptiedOpportunityIsWorthNothing(s: State, op: Op)
    requires op.DeleteItem? && Step(s, op).1.Done? && !Dies(op)
    requires forall i | i in s.items && i.opportunityId == op.id :: i.id == op.itemId
    ensures Step(s, op).0.opportunities[op.id].value == 0.0
  {
    hide NetSum;
    var left := Filter(s.items, NotItem(op.itemId));
    NoItemsNoSum(left, op.id);
  }

  lemma {:induction false} NoItemsNoSum(items: seq<Item>, id: string)
    requires forall i | i in items :: i.opportunityId != id
    ensures NetSum(items, id) == 0
  {
    if items != [] {
      NoItemsNoSum(items[..|items| - 1], id);
    }
  }

  // ----- The routes themselves -----

  class ItemStore {
    var opportunities: map<string, Opportunity>
    var items: seq<Item>

    constructor (opportunities: map<string, Opportunity>)
      ensures Now() == State(opportunities, [])
    {
      this.opportunities, items := opportunities, [];
    }

    function Now(): State
      reads this
    {
      State(opportunities, items)
    }

    method RecalculateOpportunityValue(id: string, env: Env)
      requires id in opportunities
      modifies this`opportunities
      ensures Now() == Recalculated(old(Now()), id, env)
    {
      if !env.dies {
        var sum := 0;
        for i := 0 to |items|
          invariant sum == NetSum(items[..i], id)
        {
          assert items[..i + 1][..i] == items[..i];
          if items[i].opportunityId == id {
            sum := sum + items[i].net;
          }
        }
        assert items[..|items|] == items;
        opportunities := opportunities[id := opportunities[id].(value := Amount(sum))];
      }
    }

    method PostItem(id: string, p: Payload, env: Env) returns (reply: Reply)
      modifies this
      ensures (Now(), reply) == Step(old(Now()), CreateItem(id, p, env))
    {
      hide ComputeTotals, MaxLine, NetSum, LineTaken;
      if !Visible(Now(), id, env) {
        return Refused(404);
      }
      if p.quantity.None? || p.unitPrice.None? || !Parses(p) {
        return Refused(400);
      }
      if !KnownProduct(p.productId, env) {
        return Refused(404);
      }
      var kind, discountValue := Or(p.kind, Value), Or(p.discountValue, 0.0);
      var t := ComputeTotals(p.quantity.value, p.unitPrice.value, kind, discountValue);
      if !t.Totals? {
        return Refused(400);
      }
      var line := Or(p.line, MaxLine(items, id) + 1);
      if LineTaken(items, id, line, env.newId) || IdTaken(items, env.newId) {
        return Refused(500);   // the unique index refuses the row
      }
      items := items + [Item(env.newId, id, OrNull(p.productId), line, p.quantity.value, p.unitPrice.value, kind,
                             discountValue,
                             t.gross, t.discount, t.net, NewSnapshot(p.texts, ProductOf(p.productId, env), line))];
      RecalculateOpportunityValue(id, env);
      reply := Done(201);
    }

    method PutItem(id: string, itemId: string, p: Payload, env: Env) returns (reply: Reply)
      modifies this
      ensures (Now(), reply) == Step(old(Now()), UpdateItem(id, itemId, p, env))
    {
      hide ComputeTotals, NetSum, LineTaken, Replaced;
      if !Visible(Now(), id, env) {
        return Refused(404);
      }
      var existing := FindItem(items, id, itemId);
      if existing.None? {
        return Refused(404);
      }
      if !Parses(p) {
        return Refused(400);
      }
      if !KnownProduct(NextProduct(existing.value, p), env) {
        return Refused(404);
      }
      var t := TotalsAfter(existing.value, p);
      if !t.Totals? {
        return Refused(400);
      }
      if LineTaken(items, id, Or(p.line, existing.value.line), itemId) {
        return Refused(500);   // the unique index refuses the update
      }
      items := Replaced(items, Changed(existing.value, p, t, env));
      RecalculateOpportunityValue(id, env);
      reply := Done(200);
    }

    method DeleteItemOf(id: string, itemId: string, env: Env) returns (reply: Reply)
      modifies this
      ensures (Now(), reply) == Step(old(Now()), DeleteItem(id, itemId, env))
    {
      hide NetSum, Filter;
      if !Visible(Now(), id, env) {
        return Refused(404);
      }
      if FindItem(items, id, itemId).None? {
        return Refused(404);
      }
      items := Filter(items, NotItem(itemId));
      RecalculateOpportunityValue(id, env);
      reply := Done(204);
    }
  }
}
