/** What the item routes store (`apps/api/src/routes/crudRoutes.ts`), field by field, and when they refuse. */
module ItemAnswers {
  import opened Text
  import Grouping
  import opened OpportunityItems

  // ----- The request -----

  predicate TrimsTo(text: Option<string>, least: nat, most: nat) {
    match text
    case Some(t) => least <= |Trim(t)| <= most
    case None => true
  }

  /** The fields given are in range; an update may leave any of them out. */
  predicate InRange(p: Payload) {
    && (p.quantity.Some? ==> p.quantity.value > 0.0) && (p.unitPrice.Some? ==> p.unitPrice.value >= 0.0)
    && (p.discountValue.Some? ==> p.discountValue.value >= 0.0) && (p.line.Some? ==> p.line.value >= 1)
    && TrimsTo(p.texts.code, 1, 60) && TrimsTo(p.texts.classCode, 1, 60) && TrimsTo(p.texts.name, 1, 240)
    && TrimsTo(p.texts.unit, 0, 30) && (p.texts.notes.Some? ==> |p.texts.notes.value| <= 2000)
  }

  /** The caller may see the opportunity. */
  predicate MaySee(s: State, id: string, env: Env) {
    id in s.opportunities && (env.seller == None || env.seller == Some(s.opportunities[id].owner))
  }

  predicate NamesProduct(productId: Option<string>) {
    productId != None && productId != Some("")
  }

  predicate UnknownProduct(productId: Option<string>, env: Env) {
    NamesProduct(productId) && productId.value !in env.products
  }

  // ----- The money -----

  /** In cents, `c` is the whole number nearest to `x`, the upper of two. */
  predicate Nearest(c: int, x: real) {
    -0.5 <= x - c as real < 0.5
  }

  function RawCents(quantity: real, unitPrice: real): real {
    100.0 * (quantity * unitPrice)
  }

  function RawDiscountCents(gross: int, kind: DiscountType, discountValue: real): real {
    if kind == Percent then gross as real * (discountValue / 100.0) else 100.0 * discountValue
  }

  /** Gross is quantity times price, the discount its percentage or the amount given, net what remains. */
  predicate Billed(i: Item) {
    && Nearest(i.gross, RawCents(i.quantity, i.unitPrice))
    && Nearest(i.discount, RawDiscountCents(i.gross, i.kind, i.discountValue))
    && i.net == i.gross - i.discount
  }

  /** A percentage above 100 or an amount above the gross total of `gross` cents. */
  predicate TooMuch(gross: int, kind: DiscountType, discountValue: real) {
    if kind == Percent then discountValue > 100.0 else 100.0 * discountValue > gross as real
  }

  lemma Multiplied(a: real, b: real)
    ensures Times(a, b) == a * b
  {
  }

  /** The totals fail exactly when the discount is too much, and otherwise bill the item. */
  lemma TotalsBill(quantity: real, unitPrice: real, kind: DiscountType, discountValue: real, gross: int)
    requires 0.0 <= quantity && 0.0 <= unitPrice && 0.0 <= discountValue
             && Nearest(gross, RawCents(quantity, unitPrice))
    ensures var t := ComputeTotals(quantity, unitPrice, kind, discountValue);
            && (t.Totals? <==> !TooMuch(gross, kind, discountValue))
            && (t.Totals? ==>
                  && t.gross == gross && t.net == t.gross - t.discount
                  && Nearest(t.discount, RawDiscountCents(gross, kind, discountValue)))
  {
    Multiplied(quantity, unitPrice);
    CentsIsNearest(quantity * unitPrice, gross);
    TotalsBalance(quantity, unitPrice, kind, discountValue);
    var t := ComputeTotals(quantity, unitPrice, kind, discountValue);
    DiscountIsNearest(gross, kind, discountValue);
    AmountInCents(gross, discountValue);
    hide ComputeTotals, Cents, Times, RawDiscount, Amount;
  }

  lemma AmountInCents(gross: int, x: real)
    ensures x > Amount(gross) <==> 100.0 * x > gross as real
  {
  }

  lemma DiscountIsNearest(gross: int, kind: DiscountType, discountValue: real)
    ensures Nearest(Cents(RawDiscount(gross, kind, discountValue)),
                    RawDiscountCents(gross, kind, discountValue))
  {
    var raw := RawDiscount(gross, kind, discountValue);
    CentsIsNearest(raw, Cents(raw));
    if kind == Percent {
      Multiplied(Amount(gross), discountValue / 100.0);
      HundredTimes(gross as real, discountValue / 100.0);
    }
    hide Cents, Times;
  }

  lemma HundredTimes(g: real, x: real)
    ensures 100.0 * ((g / 100.0) * x) == g * x
  {
  }

  // ----- A new item -----

  predicate NonEmpty(text: Option<string>) {
    text.Some? && text.value != ""
  }

  /** The request's text, trimmed, or failing it the product's, or failing both the fallback. */
  predicate TextFrom(actual: string, given: Option<string>, product: Option<string>, fallback: string) {
    actual == if given.Some? && Trim(given.value) != "" then Trim(given.value)
              else if NonEmpty(product) then product.value
              else fallback
  }

  predicate UnitFrom(actual: Option<string>, given: Option<string>, product: Option<string>) {
    actual == if given.Some? && Trim(given.value) != "" then Some(Trim(given.value))
              else if NonEmpty(product) then product
              else None
  }

  /** The texts kept of the item's product, if it has one, and of the request. */
  predicate TextsKept(x: Item, t: Texts, productId: Option<string>, env: Env) {
    var k := x.snapshot;
    && k.notes == (if NonEmpty(t.notes) then t.notes else None)
    && if NamesProduct(productId) && productId.value in env.products then
         var product := env.products[productId.value];
         && TextFrom(k.code, t.code, Some(product.code), "manual")
         && TextFrom(k.classCode, t.classCode, Some(product.classCode), NatText(if x.line > 0 then x.line else 0))
         && TextFrom(k.name, t.name, Some(product.name), "Item sem produto")
         && UnitFrom(k.unit, t.unit, product.unit)
       else
         && TextFrom(k.code, t.code, None, "manual")
         && TextFrom(k.classCode, t.classCode, None, NatText(if x.line > 0 then x.line else 0))
         && TextFrom(k.name, t.name, None, "Item sem produto")
         && UnitFrom(k.unit, t.unit, None)
  }

  /** The line given or, without one, the one after the last of the opportunity. */
  predicate LineFor(items: seq<Item>, id: string, given: Option<int>, line: int) {
    match given
    case Some(l) => line == l
    case None =>
      && (forall i | i in items && i.opportunityId == id :: i.line < line)
      && (line == 1 || exists i | i in items :: i.opportunityId == id && i.line == line - 1)
  }

  predicate StoredAs(s: State, id: string, p: Payload, env: Env, x: Item) {
    && x.id == env.newId && x.opportunityId == id
    && x.productId == (if NamesProduct(p.productId) then p.productId else None)
    && p.quantity == Some(x.quantity) && p.unitPrice == Some(x.unitPrice)
    && x.kind == (if p.kind == Some(Percent) then Percent else Value)
    && x.discountValue == (if p.discountValue.Some? then p.discountValue.value else 0.0)
    && LineFor(s.items, id, p.line, x.line) && Billed(x) && TextsKept(x, p.texts, p.productId, env)
  }

  /** Only the value of the one opportunity may differ. */
  predicate OnlyValueOf(s: State, t: State, id: string) {
    && t.opportunities.Keys == s.opportunities.Keys
    && forall o | o in s.opportunities ::
         t.opportunities[o].owner == s.opportunities[o].owner
         && (o != id ==> t.opportunities[o].value == s.opportunities[o].value)
  }

  /** A new line number, or key, that is taken. */
  ghost predicate NoRoom(s: State, id: string, p: Payload, env: Env) {
    || (p.line.Some? && exists i | i in s.items :: i.opportunityId == id && i.line == p.line.value)
    || exists i | i in s.items :: i.id == env.newId
  }

  lemma RangeParses(p: Payload)
    ensures Parses(p) <==> InRange(p)
  {
    hide Trim;
  }

  function Given<T>(a: Option<T>, otherwise: T): T {
    match a
    case Some(x) => x
    case None => otherwise
  }

  /** Creating an item: 404 without the opportunity or its product, 400 out of range or when the discount is too much
      for the gross total, 500 without room; otherwise 201, and the one new item is stored as the request says. */
  lemma CreateAnswers(s: State, id: string, p: Payload, env: Env, gross: int)
    requires p.quantity.Some? && p.unitPrice.Some? ==> Nearest(gross, RawCents(p.quantity.value, p.unitPrice.value))
    ensures var (t, reply) := Step(s, CreateItem(id, p, env));
            if !MaySee(s, id, env) then t == s && reply == Refused(404)
            else if p.quantity.None? || p.unitPrice.None? || !InRange(p) then t == s && reply == Refused(400)
            else if UnknownProduct(p.productId, env) then t == s && reply == Refused(404)
            else if TooMuch(gross, Given(p.kind, Value), Given(p.discountValue, 0.0))
              then t == s && reply == Refused(400)
            else if NoRoom(s, id, p, env) then t == s && reply == Refused(500)
            else
              && reply == Done(201) && |t.items| == |s.items| + 1 && t.items[..|s.items|] == s.items
              && StoredAs(s, id, p, env, t.items[|s.items|]) && OnlyValueOf(s, t, id)
  {
    hide RawCents, RawDiscountCents, Parses, InRange, ComputeTotals, TooMuch, NetSum, LineTaken, IdTaken, NewSnapshot,
         StoredAs, NoRoom, MaxLine, Nearest,
         OnlyValueOf, Recalculated;
    RangeParses(p);
    if p.quantity.Some? && p.unitPrice.Some? && InRange(p) {
      NumbersInRange(p);
      var kind, discountValue := Given(p.kind, Value), Given(p.discountValue, 0.0);
      TotalsBill(p.quantity.value, p.unitPrice.value, kind, discountValue, gross);
      RoomExactly(s, id, p, env);
      if id in s.opportunities && ComputeTotals(p.quantity.value, p.unitPrice.value, kind, discountValue).Totals? {
        NewItemBilled(s, id, p, env, gross);
        CreatedLast(s, id, NewItem(s, id, p, env), env);
      }
    }
  }

  lemma NumbersInRange(p: Payload)
    requires InRange(p)
    ensures (p.quantity.Some? ==> 0.0 <= p.quantity.value) && (p.unitPrice.Some? ==> 0.0 <= p.unitPrice.value)
    ensures 0.0 <= Given(p.discountValue, 0.0)
    ensures p.line.Some? ==> p.line.value >= 1
  {
    hide TrimsTo;
  }

  /** The item a complete request makes. */
  function NewItem(s: State, id: string, p: Payload, env: Env): Item
    requires p.quantity.Some? && p.unitPrice.Some?
    requires ComputeTotals(p.quantity.value, p.unitPrice.value, Or(p.kind, Value), Or(p.discountValue, 0.0)).Totals?
  {
    var line, t := Or(p.line, MaxLine(s.items, id) + 1),
                   ComputeTotals(p.quantity.value, p.unitPrice.value, Or(p.kind, Value), Or(p.discountValue, 0.0));
    Item(env.newId, id, OrNull(p.productId), line, p.quantity.value, p.unitPrice.value, Or(p.kind, Value),
         Or(p.discountValue, 0.0), t.gross, t.discount, t.net, NewSnapshot(p.texts, ProductOf(p.productId, env), line))
  }

  lemma NewItemBilled(s: State, id: string, p: Payload, env: Env, gross: int)
    requires p.quantity.Some? && p.unitPrice.Some? && InRange(p)
    requires Nearest(gross, RawCents(p.quantity.value, p.unitPrice.value))
    requires ComputeTotals(p.quantity.value, p.unitPrice.value, Or(p.kind, Value), Or(p.discountValue, 0.0)).Totals?
    ensures StoredAs(s, id, p, env, NewItem(s, id, p, env))
  {
    hide RawCents, RawDiscountCents, ComputeTotals, InRange, TooMuch, NewSnapshot, MaxLine, Nearest, StoredAs;
    NumbersInRange(p);
    var kind, discountValue := Or(p.kind, Value), Or(p.discountValue, 0.0);
    TotalsBill(p.quantity.value, p.unitPrice.value, kind, discountValue, gross);
    NewItemStored(s, id, p, env, Or(p.line, MaxLine(s.items, id) + 1),
                  ComputeTotals(p.quantity.value, p.unitPrice.value, kind, discountValue), NewItem(s, id, p, env));
  }

  lemma CreatedLast(s: State, id: string, x: Item, env: Env)
    requires id in s.opportunities
    ensures var t := Recalculated(s.(items := s.items + [x]), id, env);
            OnlyValueOf(s, t, id) && t.items == s.items + [x]
  {
    hide NetSum;
  }

  lemma RoomExactly(s: State, id: string, p: Payload, env: Env)
    ensures var line := Or(p.line, MaxLine(s.items, id) + 1);
            NoRoom(s, id, p, env) <==> LineTaken(s.items, id, line, env.newId) || IdTaken(s.items, env.newId)
  {
    NextLineIsFree(s.items, id, env.newId);
    hide MaxLine;
  }

  lemma NewItemStored(s: State, id: string, p: Payload, env: Env, line: int, t: Totals, x: Item)
    requires p.quantity.Some? && p.unitPrice.Some? && line == Or(p.line, MaxLine(s.items, id) + 1)
    requires p.line.Some? ==> p.line.value >= 1
    requires t.Totals? && x == Item(env.newId, id, OrNull(p.productId), line, p.quantity.value, p.unitPrice.value,
                                    Or(p.kind, Value), Or(p.discountValue, 0.0), t.gross, t.discount, t.net,
                                    NewSnapshot(p.texts, ProductOf(p.productId, env), line))
    requires Billed(x)
    ensures StoredAs(s, id, p, env, x)
  {
    hide Billed, TextsKept, NewSnapshot, MaxLine, LineFor, ProductOf;
    LineIsNext(s.items, id);
    LineIsGiven(s.items, id, p.line, line);
    SnapshotKept(p.texts, p.productId, env, x);
  }

  lemma LineIsGiven(items: seq<Item>, id: string, given: Option<int>, line: int)
    requires line == Or(given, MaxLine(items, id) + 1)
    ensures LineFor(items, id, given, line)
  {
    LineIsNext(items, id);
    hide MaxLine;
  }

  lemma {:induction false} LineIsNext(items: seq<Item>, id: string)
    ensures MaxLine(items, id) >= 0 && LineFor(items, id, None, MaxLine(items, id) + 1)
  {
    if items != [] {
      LineIsNext(items[..|items| - 1], id);
    }
  }

  lemma SnapshotKept(t: Texts, productId: Option<string>, env: Env, x: Item)
    requires x.line >= 1 && x.snapshot == NewSnapshot(t, ProductOf(productId, env), x.line)
    ensures TextsKept(x, t, productId, env)
  {
    hide Trim, NatText;
  }

  // ----- A changed item -----

  /** The first item of that key on that opportunity; keys are unique. */
  predicate IsItem(items: seq<Item>, id: string, itemId: string, k: int) {
    && 0 <= k < |items| && items[k].id == itemId && items[k].opportunityId == id
    && forall j | 0 <= j < k :: !(items[j].id == itemId && items[j].opportunityId == id)
  }

  lemma {:induction false} FindsItem(items: seq<Item>, id: string, itemId: string)
    ensures FindItem(items, id, itemId) == None <==> forall k :: !IsItem(items, id, itemId, k)
    ensures forall k | IsItem(items, id, itemId, k) :: FindItem(items, id, itemId) == Some(items[k])
  {
    if items != [] {
      if items[0].id == itemId && items[0].opportunityId == id {
        assert IsItem(items, id, itemId, 0);
      } else {
        FindsItem(items[1..], id, itemId);
        forall k ensures IsItem(items, id, itemId, k) <==> IsItem(items[1..], id, itemId, k - 1) {
          NextItem(items, id, itemId, k);
        }
        hide IsItem;
        if k :| IsItem(items[1..], id, itemId, k) {
          assert IsItem(items, id, itemId, k + 1);
        }
      }
    }
  }

  lemma NextItem(items: seq<Item>, id: string, itemId: string, k: int)
    requires items != [] && !(items[0].id == itemId && items[0].opportunityId == id)
    ensures IsItem(items, id, itemId, k) <==> IsItem(items[1..], id, itemId, k - 1)
  {
    if IsItem(items, id, itemId, k) {
      forall j | 0 <= j < k - 1 ensures !(items[1..][j].id == itemId && items[1..][j].opportunityId == id) {
        assert items[1..][j] == items[j + 1];
      }
    }
    if IsItem(items[1..], id, itemId, k - 1) {
      forall j | 0 <= j < k ensures !(items[j].id == itemId && items[j].opportunityId == id) {
        assert j > 0 ==> items[j] == items[1..][j - 1];
      }
    }
  }

  function ProductAfter(o: Item, p: Payload): Option<string> {
    match p.productId
    case Some(given) => Some(given)
    case None => o.productId
  }

  /** The text given, trimmed, or failing it the product's, or failing both the old one. */
  predicate TextChanged(actual: string, given: Option<string>, product: Option<string>, before: string) {
    actual == if given.Some? then Trim(given.value) else if product.Some? then product.value else before
  }

  predicate TextsChanged(o: Item, p: Payload, env: Env, x: Item) {
    var t, k, b := p.texts, x.snapshot, o.snapshot;
    && k.notes == (if t.notes == None then b.notes else if t.notes == Some("") then None else t.notes)
    && if NamesProduct(ProductAfter(o, p)) && ProductAfter(o, p).value in env.products then
         var product := env.products[ProductAfter(o, p).value];
         && TextChanged(k.code, t.code, Some(product.code), b.code)
         && TextChanged(k.classCode, t.classCode, Some(product.classCode), b.classCode)
         && TextChanged(k.name, t.name, Some(product.name), b.name)
         && k.unit
           == (if t.unit.Some? then Some(Trim(t.unit.value)) else if product.unit.Some? then product.unit else b.unit)
       else
         && TextChanged(k.code, t.code, None, b.code) && TextChanged(k.classCode, t.classCode, None, b.classCode)
         && TextChanged(k.name, t.name, None, b.name)
         && k.unit == (if t.unit.Some? then Some(Trim(t.unit.value)) else b.unit)
  }

  /** Each field is the request's where given and the old one where not; the totals are billed afresh. */
  predicate ChangedAs(o: Item, p: Payload, env: Env, x: Item) {
    && x.id == o.id && x.opportunityId == o.opportunityId
    && x.productId == (if NamesProduct(ProductAfter(o, p)) then ProductAfter(o, p) else None)
    && (match p.line case Some(l) => x.line == l case None => x.line == o.line)
    && (match p.quantity case Some(q) => x.quantity == q case None => x.quantity == o.quantity)
    && (match p.unitPrice case Some(u) => x.unitPrice == u case None => x.unitPrice == o.unitPrice)
    && (match p.kind case Some(d) => x.kind == d case None => x.kind == o.kind)
    && (match p.discountValue case Some(d) => x.discountValue == d case None => x.discountValue == o.discountValue)
    && Billed(x) && TextsChanged(o, p, env, x)
  }

  predicate LineClash(items: seq<Item>, o: Item, p: Payload) {
    exists i | i in items :: i.opportunityId == o.opportunityId && i.line == Given(p.line, o.line) && i.id != o.id
  }

  /** What an update of item `k` answers, the gross total after it being `gross` cents. */
  ghost predicate UpdateAnswered(s: State, k: nat, p: Payload, env: Env, gross: int, answer: (State, Reply))
    requires k < |s.items|
  {
    var o, t := s.items[k], answer.0;
    if !InRange(p) then answer == (s, Refused(400))
    else if UnknownProduct(ProductAfter(o, p), env) then answer == (s, Refused(404))
    else if TooMuch(gross, Given(p.kind, o.kind), Given(p.discountValue, o.discountValue))
      then answer == (s, Refused(400))
    else if LineClash(s.items, o, p) then answer == (s, Refused(500))
    else
      && answer.1 == Done(200) && |t.items| == |s.items| && OnlyValueOf(s, t, o.opportunityId)
      && forall j | 0 <= j < |s.items| ::
           if s.items[j].id == o.id then ChangedAs(o, p, env, t.items[j]) else t.items[j] == s.items[j]
  }

  /** Updating an item: 404 without the opportunity, the item or its product, 400 out of range or when the discount is
      too much, 500 when the line is taken; otherwise 200, that item is changed as the request says and no other is.
      */
  lemma UpdateAnswers(s: State, id: string, itemId: string, p: Payload, env: Env, k: nat, gross: int)
    requires forall i | i in s.items :: 0.0 <= i.quantity && 0.0 <= i.unitPrice && 0.0 <= i.discountValue
    requires IsItem(s.items, id, itemId, k) ==>
               Nearest(gross,
                       RawCents(Given(p.quantity, s.items[k].quantity), Given(p.unitPrice, s.items[k].unitPrice)))
    ensures var answer := Step(s, UpdateItem(id, itemId, p, env));
            && (!MaySee(s, id, env) ==> answer == (s, Refused(404)))
            && ((forall j :: !IsItem(s.items, id, itemId, j)) ==> answer == (s, Refused(404)))
            && (MaySee(s, id, env) && IsItem(s.items, id, itemId, k) ==> UpdateAnswered(s, k, p, env, gross, answer))
  {
    FindsItem(s.items, id, itemId);
    hide FindItem, RawCents, Nearest, UpdateAnswered, Recalculated, ComputeTotals, LineTaken;
    if MaySee(s, id, env) && IsItem(s.items, id, itemId, k) {
      assert s.items[k] in s.items;
      UpdateOne(s, id, p, env, k, gross);
    }
  }

  function UpdateOf(s: State, id: string, o: Item, p: Payload, env: Env): (State, Reply)
    requires id in s.opportunities
  {
    if !Parses(p) then (s, Refused(400))
    else if !KnownProduct(NextProduct(o, p), env) then (s, Refused(404))
    else
      var t := TotalsAfter(o, p);
      if !t.Totals? then (s, Refused(400))
      else if LineTaken(s.items, id, Or(p.line, o.line), o.id) then (s, Refused(500))
      else (Recalculated(s.(items := Replaced(s.items, Changed(o, p, t, env))), id, env), Done(200))
  }

  lemma UpdateOne(s: State, id: string, p: Payload, env: Env, k: nat, gross: int)
    requires k < |s.items| && id in s.opportunities && s.items[k].opportunityId == id
    requires var o := s.items[k]; 0.0 <= o.quantity && 0.0 <= o.unitPrice && 0.0 <= o.discountValue
    requires Nearest(gross, RawCents(Given(p.quantity, s.items[k].quantity), Given(p.unitPrice, s.items[k].unitPrice)))
    ensures UpdateAnswered(s, k, p, env, gross, UpdateOf(s, id, s.items[k], p, env))
  {
    hide RawCents, RawDiscountCents, Nearest, Parses, InRange, TooMuch, ComputeTotals, Recalculated, ChangedAs,
         OnlyValueOf,
         Changed, LineTaken, LineClash;
    var o := s.items[k];
    RangeParses(p);
    ClashExactly(s.items, o, p);
    if InRange(p) {
      UpdateBills(o, p, gross);
      if TotalsAfter(o, p).Totals? {
        ChangedIsStored(o, p, env, gross);
        ChangedOnly(s, id, Changed(o, p, TotalsAfter(o, p), env), env);
      }
    }
  }

  lemma ClashExactly(items: seq<Item>, o: Item, p: Payload)
    ensures LineClash(items, o, p) <==> LineTaken(items, o.opportunityId, Or(p.line, o.line), o.id)
  {
  }

  lemma UpdateBills(o: Item, p: Payload, gross: int)
    requires InRange(p) && 0.0 <= o.quantity && 0.0 <= o.unitPrice && 0.0 <= o.discountValue
    requires Nearest(gross, RawCents(Given(p.quantity, o.quantity), Given(p.unitPrice, o.unitPrice)))
    ensures var t, kind, discountValue := TotalsAfter(o, p), Given(p.kind, o.kind),
            Given(p.discountValue, o.discountValue);
            && (t.Totals? <==> !TooMuch(gross, kind, discountValue))
            && (t.Totals? ==> t.gross == gross && t.net == t.gross - t.discount
                              && Nearest(t.discount, RawDiscountCents(gross, kind, discountValue)))
  {
    hide RawCents, RawDiscountCents, Nearest, InRange, TooMuch, ComputeTotals;
    PricesInRange(p);
    TotalsBill(Given(p.quantity, o.quantity), Given(p.unitPrice, o.unitPrice), Given(p.kind, o.kind),
               Given(p.discountValue, o.discountValue), gross);
  }

  lemma PricesInRange(p: Payload)
    requires InRange(p)
    ensures (p.quantity.Some? ==> 0.0 <= p.quantity.value) && (p.unitPrice.Some? ==> 0.0 <= p.unitPrice.value)
    ensures p.discountValue.Some? ==> 0.0 <= p.discountValue.value
  {
    hide TrimsTo;
  }

  lemma ChangedIsStored(o: Item, p: Payload, env: Env, gross: int)
    requires InRange(p) && 0.0 <= o.quantity && 0.0 <= o.unitPrice && 0.0 <= o.discountValue
    requires Nearest(gross, RawCents(Given(p.quantity, o.quantity), Given(p.unitPrice, o.unitPrice)))
    requires TotalsAfter(o, p).Totals?
    ensures ChangedAs(o, p, env, Changed(o, p, TotalsAfter(o, p), env))
            && Changed(o, p, TotalsAfter(o, p), env).id == o.id
  {
    UpdateBills(o, p, gross);
    hide RawCents, RawDiscountCents, Nearest, InRange, TooMuch, TotalsAfter, TextsChanged, ChangedSnapshot;
    SnapshotChanged(o, p, env, Changed(o, p, TotalsAfter(o, p), env));
  }

  lemma SnapshotChanged(o: Item, p: Payload, env: Env, x: Item)
    requires x.snapshot == ChangedSnapshot(o.snapshot, p.texts, ProductOf(NextProduct(o, p), env))
    ensures TextsChanged(o, p, env, x)
  {
    hide Trim;
  }

  lemma ChangedOnly(s: State, id: string, x: Item, env: Env)
    requires id in s.opportunities
    ensures var t := Recalculated(s.(items := Replaced(s.items, x)), id, env);
            && OnlyValueOf(s, t, id) && |t.items| == |s.items|
            && forall j | 0 <= j < |s.items| :: t.items[j] == if s.items[j].id == x.id then x else s.items[j]
  {
    hide NetSum;
  }

  /** Deleting an item: 404 without the opportunity or the item; otherwise 204, and only the items of that key go. */
  lemma DeleteAnswers(s: State, id: string, itemId: string, env: Env)
    ensures var (t, reply) := Step(s, DeleteItem(id, itemId, env));
            if !MaySee(s, id, env) || forall k :: !IsItem(s.items, id, itemId, k) then t == s && reply == Refused(404)
            else
              && reply == Done(204) && OnlyValueOf(s, t, id)
              && forall i :: i in t.items <==> i in s.items && i.id != itemId
  {
    FindsItem(s.items, id, itemId);
    forall i: Item ensures NotItem(itemId)(i) <==> i.id != itemId {
    }
    hide FindItem, IsItem, NetSum, Grouping.Filter;
  }
}
