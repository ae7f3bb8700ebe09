/** Which cities belong to which seller (`apps/api/src/routes/crudRoutes.ts`): the six operations that change
    the table and the exclusivity they keep. */
module Territory {
  import opened Text
  import opened Grouping

  /** The states the input schema lets through, already normalised. */
  datatype Uf = PR | SC | MS

  /** A city as a request names it. */
  datatype Input = Input(city: string, state: Uf, ibge: Option<string>)

  /** A city of the official list of one state. */
  datatype Place = Place(city: string, ibge: Option<string>)

  datatype Official = Official(city: string, state: Uf, ibge: Option<string>)

  datatype Row = Row(id: nat, sellerId: string, city: string, state: Uf, ibge: Option<string>)

  type Catalog = Uf -> seq<Place>

  /** `normalizeTerritoryCityKey`. */
  type CityKey = string -> string

  datatype Error = BadLine | NotFound | AlreadyLinked | TakenBy(sellerId: string)

  datatype Reply = Done(status: nat, created: nat, errors: seq<Error>) | Refused(status: nat, errors: seq<Error>)

  // ----- Keys -----

  function StateText(u: Uf): (r: string)
    ensures |r| == 2
  {
    match u
    case PR => "PR"
    case SC => "SC"
    case MS => "MS"
  }

  /** `ibgeCode?.trim()`, where the empty string counts as absent. */
  function Code(ibge: Option<string>): Option<string> {
    if ibge.Some? && Trim(ibge.value) != "" then Some(Trim(ibge.value)) else None
  }

  function NormalizedKey(key: CityKey, state: Uf, city: string): string {
    StateText(state) + "::" + key(city)
  }

  function StableKey(key: CityKey, state: Uf, city: string, ibge: Option<string>): string {
    var code := Code(ibge);
    if code.Some? then StateText(state) + "::IBGE::" + code.value else NormalizedKey(key, state, city)
  }

  lemma NormalizedKeysTellApart(key: CityKey, s: Uf, c: string, t: Uf, d: string)
    ensures NormalizedKey(key, s, c) == NormalizedKey(key, t, d) <==> s == t && key(c) == key(d)
  {
    var a, b := NormalizedKey(key, s, c), NormalizedKey(key, t, d);
    assert a[..2] == StateText(s) && b[..2] == StateText(t);
    assert a[4..] == key(c) && b[4..] == key(d);
    assert StateText(s) == StateText(t) ==> s == t by {
      assert StateText(s)[0] == StateText(t)[0] ==> s == t;
    }
  }

  // ----- Searching -----

  function First<T>(s: seq<T>, p: T -> bool): (r: Option<T>)
    ensures r.Some? ==> r.value in s && p(r.value)
    ensures r.None? ==> forall x | x in s :: !p(x)
  {
    if s == [] then None else if p(s[0]) then Some(s[0]) else First(s[1..], p)
  }

  function PlaceWithCode(code: string): Place -> bool {
    (p: Place) => p.ibge == Some(code)
  }

  function PlaceNamed(key: CityKey, city: string): Place -> bool {
    (p: Place) => key(p.city) == key(city)
  }

  /** The official city a request means: by code when one is given and known, else by name. */
  function FindOfficial(key: CityKey, catalog: Catalog, input: Input): Option<Official> {
    var places := catalog(input.state);
    var code := Code(input.ibge);
    var byCode := if code.Some? then First(places, PlaceWithCode(code.value)) else None;
    var found := if byCode.Some? then byCode else First(places, PlaceNamed(key, input.city));
    if found.Some? then Some(Official(found.value.city, input.state, found.value.ibge)) else None
  }

  function InStateOfOthers(sellerId: string, state: Uf): Row -> bool {
    (r: Row) => r.state == state && r.sellerId != sellerId
  }

  function InStateOf(sellerId: string, state: Uf): Row -> bool {
    (r: Row) => r.state == state && r.sellerId == sellerId
  }

  function RowWithCode(code: string): Row -> bool {
    (r: Row) => r.ibge == Some(code)
  }

  function RowNamed(key: CityKey, o: Official): Row -> bool {
    (r: Row) => NormalizedKey(key, r.state, r.city) == NormalizedKey(key, o.state, o.city)
  }

  function FindAmong(key: CityKey, rows: seq<Row>, o: Official): Option<Row> {
    var code := Code(o.ibge);
    var byCode := if code.Some? then First(rows, RowWithCode(code.value)) else None;
    if byCode.Some? then byCode else First(rows, RowNamed(key, o))
  }

  function FindExisting(key: CityKey, rows: seq<Row>, sellerId: string, o: Official): Option<Row> {
    FindAmong(key, Filter(rows, InStateOf(sellerId, o.state)), o)
  }

  function FindLinked(key: CityKey, rows: seq<Row>, sellerId: string, o: Official): Option<Row> {
    FindAmong(key, Filter(rows, InStateOfOthers(sellerId, o.state)), o)
  }

  // ----- Validation against the official list -----

  datatype Validation = Validation(seen: set<string>, cities: seq<Official>, errors: seq<Error>)

  function Accepted(found: Official, input: Input): Official {
    if found.ibge.None? && input.ibge.Some? then found.(ibge := Some(Trim(input.ibge.value))) else found
  }

  function ValidateOne(key: CityKey, catalog: Catalog, v: Validation, input: Input): Validation {
    var found := FindOfficial(key, catalog, input);
    if found.None? then v.(errors := v.errors + [NotFound])
    else
      var k := StableKey(key, found.value.state, found.value.city, found.value.ibge);
      if k in v.seen then v.(errors := v.errors + [AlreadyLinked])
      else Validation(v.seen + {k}, v.cities + [Accepted(found.value, input)], v.errors)
  }

  function Validated(key: CityKey, catalog: Catalog, inputs: seq<Input>): Validation {
    if inputs == [] then Validation({}, [], [])
    else ValidateOne(key, catalog, Validated(key, catalog, inputs[..|inputs| - 1]), inputs[|inputs| - 1])
  }

  method ValidateOfficialCities(key: CityKey, catalog: Catalog, inputs: seq<Input>)
    returns (cities: seq<Official>, errors: seq<Error>)
    ensures cities == Validated(key, catalog, inputs).cities && errors == Validated(key, catalog, inputs).errors
  {
    hide FindOfficial, StableKey;
    var seen: set<string> := {};
    cities, errors := [], [];
    for i := 0 to |inputs|
      invariant Validation(seen, cities, errors) == Validated(key, catalog, inputs[..i])
    {
      assert inputs[..i + 1][..i] == inputs[..i];
      var found := FindOfficial(key, catalog, inputs[i]);
      if found.None? {
        errors := errors + [NotFound];
      } else {
        var k := StableKey(key, found.value.state, found.value.city, found.value.ibge);
        if k in seen {
          errors := errors + [AlreadyLinked];
        } else {
          seen := seen + {k};
          cities := cities + [Accepted(found.value, inputs[i])];
        }
      }
    }
    assert inputs[..|inputs|] == inputs;
  }

  // ----- The table -----

  datatype Store = Store(rows: seq<Row>, nextId: nat)

  predicate SameTriple(r: Row, sellerId: string, o: Official) {
    r.sellerId == sellerId && r.state == o.state && r.city == o.city
  }

  predicate Taken(rows: seq<Row>, sellerId: string, o: Official) {
    exists r | r in rows :: SameTriple(r, sellerId, o)
  }

  function NewRow(id: nat, sellerId: string, o: Official): Row {
    Row(id, sellerId, o.city, o.state, o.ibge)
  }

  /** One row of `createMany` with `skipDuplicates`: the unique index is on seller, state and city. */
  function Insert(s: Store, sellerId: string, o: Official): Store {
    if Taken(s.rows, sellerId, o) then s else Store(s.rows + [NewRow(s.nextId, sellerId, o)], s.nextId + 1)
  }

  function InsertAll(s: Store, sellerId: string, cities: seq<Official>): Store {
    if cities == [] then s else Insert(InsertAll(s, sellerId, cities[..|cities| - 1]), sellerId, cities[|cities| - 1])
  }

  // ----- What bulk add and KML confirmation decide to create -----

  datatype Plan = Plan(keys: set<string>, create: seq<Official>, errors: seq<Error>, conflict: Option<Row>)

  function OwnKeys(key: CityKey, rows: seq<Row>, sellerId: string): set<string> {
    set r | r in rows && r.sellerId == sellerId :: StableKey(key, r.state, r.city, r.ibge)
  }

  /** Bulk add collects a message for a city it cannot link; KML confirmation passes over the seller's own
      cities and gives up at the first city of another seller. */
  function PlanOne(key: CityKey, rows: seq<Row>, sellerId: string, bulk: bool, p: Plan, o: Official): Plan {
    var k := StableKey(key, o.state, o.city, o.ibge);
    if p.conflict.Some? then p
    else if k in p.keys then (if bulk then p.(errors := p.errors + [AlreadyLinked]) else p)
    else
      var linked := FindLinked(key, rows, sellerId, o);
      if linked.None? then p.(keys := p.keys + {k}, create := p.create + [o])
      else if bulk then p.(errors := p.errors + [TakenBy(linked.value.sellerId)])
      else p.(conflict := linked)
  }

  function Planned(key: CityKey, rows: seq<Row>, sellerId: string, bulk: bool, errors: seq<Error>,
                   cities: seq<Official>)
    : Plan
  {
    if cities == [] then Plan(OwnKeys(key, rows, sellerId), [], errors, None)
    else
      PlanOne(key, rows, sellerId, bulk, Planned(key, rows, sellerId, bulk, errors, cities[..|cities| - 1]),
              cities[|cities| - 1])
  }

  /** The first of `cities` that some other seller holds. */
  function FindConflict(key: CityKey, rows: seq<Row>, sellerId: string, cities: seq<Official>): (r: Option<Row>)
    ensures r.None? <==> forall o | o in cities :: FindLinked(key, rows, sellerId, o).None?
  {
    if cities == [] then None
    else if FindLinked(key, rows, sellerId, cities[0]).Some? then FindLinked(key, rows, sellerId, cities[0])
    else FindConflict(key, rows, sellerId, cities[1..])
  }

  // ----- The six operations as functions -----

  function HasId(id: nat): Row -> bool {
    (r: Row) => r.id == id
  }

  function NotId(id: nat): Row -> bool {
    (r: Row) => r.id != id
  }

  function NotOf(sellerId: string): Row -> bool {
    (r: Row) => r.sellerId != sellerId
  }

  /** `update` by primary key: the row named keeps its id and owner. */
  function Replaced(rows: seq<Row>, current: Row, o: Official): (r: seq<Row>)
    ensures |r| == |rows|
    ensures forall i | 0 <= i < |rows| ::
              r[i] == if rows[i].id == current.id then NewRow(current.id, current.sellerId, o) else rows[i]
  {
    seq(|rows|, i requires 0 <= i < |rows| =>
      if rows[i].id == current.id then NewRow(current.id, current.sellerId, o) else rows[i])
  }

  datatype Op =
    | Add(sellerId: string, input: Input)
    | AddBulk(sellerId: string, lines: seq<Option<Input>>)
    | ConfirmKml(sellerId: string, inputs: seq<Input>)
    | Replace(sellerId: string, inputs: seq<Input>)
    | Edit(id: nat, input: Input)
    | Delete(id: nat)

  /** A request, the official list as it is then, and the refusal, if any, the access rules give per seller. */
  datatype Request = Request(op: Op, catalog: Catalog, access: string -> Option<nat>)

  /** Lines of the bulk text that pass the schema. */
  function Parsed(lines: seq<Option<Input>>): seq<Input> {
    if lines == [] then []
    else Parsed(lines[..|lines| - 1]) + (if lines[|lines| - 1].Some? then [lines[|lines| - 1].value] else [])
  }

  function BadLines(lines: seq<Option<Input>>): seq<Error> {
    if lines == [] then [] else BadLines(lines[..|lines| - 1]) + (if lines[|lines| - 1].None? then [BadLine] else [])
  }

  /** The seller a request changes: named by it, or the owner of the row it names. */
  function Target(s: Store, op: Op): Option<string> {
    match op
    case Add(sellerId, _) => Some(sellerId)
    case AddBulk(sellerId, _) => Some(sellerId)
    case ConfirmKml(sellerId, _) => Some(sellerId)
    case Replace(sellerId, _) => Some(sellerId)
    case Edit(id, _) => (match First(s.rows, HasId(id)) case Some(r) => Some(r.sellerId) case None => None)
    case Delete(id) => (match First(s.rows, HasId(id)) case Some(r) => Some(r.sellerId) case None => None)
  }

  function AddStep(key: CityKey, s: Store, sellerId: string, v: Validation): (Store, Reply) {
    if v.errors != [] || v.cities == [] then (s, Refused(400, v.errors))
    else
      var o := v.cities[0];
      if FindExisting(key, s.rows, sellerId, o).Some? || FindLinked(key, s.rows, sellerId, o).Some? then
        (s, Refused(409, []))
      else (Store(s.rows + [NewRow(s.nextId, sellerId, o)], s.nextId + 1), Done(201, 1, []))
  }

  function AddBulkStep(key: CityKey, s: Store, sellerId: string, v: Validation, bad: seq<Error>): (Store, Reply) {
    var p := Planned(key, s.rows, sellerId, true, bad + v.errors, v.cities);
    (InsertAll(s, sellerId, p.create), Done(201, |p.create|, p.errors))
  }

  function ConfirmStep(key: CityKey, s: Store, sellerId: string, v: Validation): (Store, Reply) {
    if v.errors != [] then (s, Refused(400, v.errors))
    else
      var p := Planned(key, s.rows, sellerId, false, [], v.cities);
      if p.conflict.Some? then (s, Refused(409, [])) else (InsertAll(s, sellerId, p.create), Done(201, |p.create|, []))
  }

  function ReplaceStep(key: CityKey, s: Store, sellerId: string, v: Validation): (Store, Reply) {
    if v.errors != [] then (s, Refused(400, v.errors))
    else if FindConflict(key, s.rows, sellerId, v.cities).Some? then (s, Refused(409, []))
    else (InsertAll(s.(rows := Filter(s.rows, NotOf(sellerId))), sellerId, v.cities), Done(200, |v.cities|, []))
  }

  /** Editing looks only at the first of the seller's rows that matches; the unique index catches the rest. */
  function EditStep(key: CityKey, s: Store, current: Row, v: Validation): (Store, Reply) {
    if v.errors != [] || v.cities == [] then (s, Refused(400, v.errors))
    else
      var o := v.cities[0];
      var existing := FindExisting(key, s.rows, current.sellerId, o);
      if existing.Some? && existing.value.id != current.id then (s, Refused(409, []))
      else if FindLinked(key, s.rows, current.sellerId, o).Some? then (s, Refused(409, []))
      else if Taken(Filter(s.rows, NotId(current.id)), current.sellerId, o) then (s, Refused(500, []))
      else (s.(rows := Replaced(s.rows, current, o)), Done(200, 0, []))
  }

  function Step(key: CityKey, s: Store, r: Request): (Store, Reply) {
    var target := Target(s, r.op);
    if target.None? then (s, Refused(404, []))
    else if r.access(target.value).Some? then (s, Refused(r.access(target.value).value, []))
    else
      match r.op
      case Add(sellerId, input) => AddStep(key, s, sellerId, Validated(key, r.catalog, [input]))
      case AddBulk(sellerId, lines) =>
        AddBulkStep(key, s, sellerId, Validated(key, r.catalog, Parsed(lines)), BadLines(lines))
      case ConfirmKml(sellerId, inputs) => ConfirmStep(key, s, sellerId, Validated(key, r.catalog, inputs))
      case Replace(sellerId, inputs) => ReplaceStep(key, s, sellerId, Validated(key, r.catalog, inputs))
      case Edit(id, input) => EditStep(key, s, First(s.rows, HasId(id)).value, Validated(key, r.catalog, [input]))
      case Delete(id) => (s.(rows := Filter(s.rows, NotId(id))), Done(204, 0, []))
  }

  function Run(key: CityKey, s: Store, requests: seq<Request>): Store {
    if requests == [] then s
    else Step(key, Run(key, s, requests[..|requests| - 1]), requests[|requests| - 1]).0
  }

  // ----- Exclusivity -----

  /** Two rows do not put one city, by its normalised name, in two territories. */
  predicate CityApart(key: CityKey, a: Row, b: Row) {
    a.sellerId == b.sellerId || a.state != b.state || key(a.city) != key(b.city)
  }

  /** Two rows do not put one IBGE code in two territories. */
  predicate CodeApart(a: Row, b: Row) {
    a.sellerId == b.sellerId || a.state != b.state || Code(a.ibge).None? || Code(a.ibge) != Code(b.ibge)
  }

  ghost predicate CityExclusive(key: CityKey, rows: seq<Row>) {
    forall a, b | a in rows && b in rows :: CityApart(key, a, b)
  }

  ghost predicate CodeExclusive(rows: seq<Row>) {
    forall a, b | a in rows && b in rows :: CodeApart(a, b)
  }

  predicate CleanCode(ibge: Option<string>) {
    ibge.Some? ==> Trimmed(ibge.value)
  }

  ghost predicate CleanCodes(rows: seq<Row>) {
    forall r | r in rows :: CleanCode(r.ibge)
  }

  ghost predicate CleanCatalog(catalog: Catalog) {
    forall u, p | p in catalog(u) :: CleanCode(p.ibge)
  }

  /** The search hits exactly when another seller's row in that state has the same key, or stores, character by
      character, the trimmed code. */
  lemma LinkedExactly(key: CityKey, rows: seq<Row>, sellerId: string, o: Official)
    ensures FindLinked(key, rows, sellerId, o).Some? <==>
            exists r | r in rows :: r.sellerId != sellerId && r.state == o.state
                                    && (key(r.city) == key(o.city) || (Code(o.ibge).Some? && r.ibge == Code(o.ibge)))
  {
    hide Filter, First, NormalizedKey, Code;
    forall r: Row ensures RowNamed(key, o)(r) <==> r.state == o.state && key(r.city) == key(o.city) {
      NormalizedKeysTellApart(key, r.state, r.city, o.state, o.city);
    }
    assert forall r | r in rows
      && InStateOfOthers(sellerId, o.state)(r) :: r in Filter(rows, InStateOfOthers(sellerId, o.state));
  }

  /** A row that may join the table: it is the seller's, and no other seller is linked to its city. */
  ghost predicate Unlinked(key: CityKey, rows: seq<Row>, sellerId: string, r: Row) {
    r.sellerId == sellerId && FindLinked(key, rows, sellerId, Official(r.city, r.state, r.ibge)).None?
  }

  /** Every row after an operation was there before, or is one of `sellerId` nobody else is linked to. */
  ghost predicate Sound(key: CityKey, before: seq<Row>, sellerId: string, after: seq<Row>) {
    forall r | r in after :: r in before || Unlinked(key, before, sellerId, r)
  }

  lemma UnlinkedApart(key: CityKey, rows: seq<Row>, sellerId: string, r: Row, other: Row)
    requires Unlinked(key, rows, sellerId, r) && other in rows
    ensures CityApart(key, r, other) && CityApart(key, other, r)
    ensures CleanCode(other.ibge) ==> CodeApart(r, other) && CodeApart(other, r)
  {
    LinkedExactly(key, rows, sellerId, Official(r.city, r.state, r.ibge));
    CleanCodeIsCode(other.ibge);
    hide Code, CleanCode, FindLinked;
  }

  lemma CleanCodeIsCode(ibge: Option<string>)
    ensures CleanCode(ibge) && Code(ibge).Some? ==> Code(ibge) == ibge
  {
    if ibge.Some? {
      TrimIsTrimmed(ibge.value);
    }
    hide Trim, Trimmed;
  }

  lemma SoundKeepsCities(key: CityKey, before: seq<Row>, sellerId: string, after: seq<Row>)
    requires CityExclusive(key, before) && Sound(key, before, sellerId, after)
    ensures CityExclusive(key, after)
  {
    hide CityApart, Unlinked;
    forall a, b | a in after && b in after ensures CityApart(key, a, b) {
      if a !in before && b in before {
        UnlinkedApart(key, before, sellerId, a, b);
      } else if a in before && b !in before {
        UnlinkedApart(key, before, sellerId, b, a);
      } else if a !in before && b !in before {
        NewcomersApart(key, before, sellerId, a, b);
      }
    }
  }

  lemma NewcomersApart(key: CityKey, before: seq<Row>, sellerId: string, a: Row, b: Row)
    requires Unlinked(key, before, sellerId, a) && Unlinked(key, before, sellerId, b)
    ensures CityApart(key, a, b) && CodeApart(a, b)
  {
  }

  lemma SoundKeepsCodes(key: CityKey, before: seq<Row>, sellerId: string, after: seq<Row>)
    requires CodeExclusive(before) && CleanCodes(before) && Sound(key, before, sellerId, after)
    ensures CodeExclusive(after)
  {
    hide CodeApart, Unlinked, CleanCode;
    forall a, b | a in after && b in after ensures CodeApart(a, b) {
      if a !in before && b in before {
        UnlinkedApart(key, before, sellerId, a, b);
      } else if a in before && b !in before {
        UnlinkedApart(key, before, sellerId, b, a);
      } else if a !in before && b !in before {
        NewcomersApart(key, before, sellerId, a, b);
      }
    }
  }

  // ----- Every operation is sound -----

  /** Rows added by `InsertAll` carry one of the cities. */
  predicate Made(sellerId: string, cities: seq<Official>, r: Row) {
    r.sellerId == sellerId && Official(r.city, r.state, r.ibge) in cities
  }

  lemma {:induction false} InsertAllRows(s: Store, sellerId: string, cities: seq<Official>)
    ensures var t := InsertAll(s, sellerId, cities);
            && s.rows <= t.rows
            && forall r | r in t.rows[|s.rows|..] :: Made(sellerId, cities, r)
  {
    if cities != [] {
      var n := |cities| - 1;
      InsertAllRows(s, sellerId, cities[..n]);
      var before, t := InsertAll(s, sellerId, cities[..n]), InsertAll(s, sellerId, cities);
      hide InsertAll, Taken;
      forall r | r in t.rows[|s.rows|..] ensures Made(sellerId, cities, r) {
        if r !in before.rows[|s.rows|..] {
          assert t.rows != before.rows;
          assert r == NewRow(before.nextId, sellerId, cities[n]);
        } else {
          assert Made(sellerId, cities[..n], r);
        }
      }
    }
  }

  lemma {:induction false} PlannedUnlinked(key: CityKey, rows: seq<Row>, sellerId: string, bulk: bool,
                                           errors: seq<Error>,
                                          cities: seq<Official>, o: Official)
    requires o in Planned(key, rows, sellerId, bulk, errors, cities).create
    ensures o in cities && FindLinked(key, rows, sellerId, o).None?
  {
    var n := |cities| - 1;
    var p := Planned(key, rows, sellerId, bulk, errors, cities[..n]);
    hide FindLinked, StableKey, OwnKeys;
    if o in p.create {
      PlannedUnlinked(key, rows, sellerId, bulk, errors, cities[..n], o);
    }
  }

  lemma InsertingIsSound(key: CityKey, before: seq<Row>, s: Store, sellerId: string, cities: seq<Official>)
    requires forall o | o in cities :: FindLinked(key, before, sellerId, o).None?
    requires forall r | r in s.rows :: r in before
    ensures Sound(key, before, sellerId, InsertAll(s, sellerId, cities).rows)
  {
    InsertAllRows(s, sellerId, cities);
    hide InsertAll, FindLinked;
    var t := InsertAll(s, sellerId, cities);
    forall r | r in t.rows ensures r in before || Unlinked(key, before, sellerId, r) {
      if r !in s.rows {
        assert r in t.rows[|s.rows|..];
        assert Made(sellerId, cities, r);
      }
    }
  }

  lemma PlannedInsertIsSound(key: CityKey, s: Store, sellerId: string, bulk: bool, errors: seq<Error>,
                             cities: seq<Official>)
    ensures Sound(key, s.rows, sellerId,
                  InsertAll(s, sellerId, Planned(key, s.rows, sellerId, bulk, errors, cities).create).rows)
  {
    hide FindLinked, Planned, Sound, InsertAll;
    var create := Planned(key, s.rows, sellerId, bulk, errors, cities).create;
    forall o | o in create ensures FindLinked(key, s.rows, sellerId, o).None? {
      PlannedUnlinked(key, s.rows, sellerId, bulk, errors, cities, o);
    }
    InsertingIsSound(key, s.rows, s, sellerId, create);
  }

  lemma StepIsSound(key: CityKey, s: Store, r: Request)
    requires Target(s, r.op).Some?
    ensures Sound(key, s.rows, Target(s, r.op).value, Step(key, s, r).0.rows)
  {
    hide FindLinked, FindExisting, Validated, Planned, InsertAll, Filter, First, Taken, Parsed, BadLines;
    match r.op
    case Add(sellerId, input) =>
    case AddBulk(sellerId, lines) =>
      var v, bad := Validated(key, r.catalog, Parsed(lines)), BadLines(lines);
      PlannedInsertIsSound(key, s, sellerId, true, bad + v.errors, v.cities);
    case ConfirmKml(sellerId, inputs) =>
      var v := Validated(key, r.catalog, inputs);
      PlannedInsertIsSound(key, s, sellerId, false, [], v.cities);
    case Replace(sellerId, inputs) =>
      var v := Validated(key, r.catalog, inputs);
      if FindConflict(key, s.rows, sellerId, v.cities).None? {
        InsertingIsSound(key, s.rows, s.(rows := Filter(s.rows, NotOf(sellerId))), sellerId, v.cities);
      }
    case Edit(id, input) =>
    case Delete(id) =>
  }

  /** No run of requests ever links one normalised city of a state to two sellers. */
  lemma {:induction false} CitiesStayExclusive(key: CityKey, s: Store, requests: seq<Request>)
    requires CityExclusive(key, s.rows)
    ensures CityExclusive(key, Run(key, s, requests).rows)
  {
    hide CityExclusive, Step;
    if requests != [] {
      var n := |requests| - 1;
      CitiesStayExclusive(key, s, requests[..n]);
      var before := Run(key, s, requests[..n]);
      StepCases(key, before, requests[n]);
    }
  }

  lemma StepCases(key: CityKey, s: Store, r: Request)
    ensures CityExclusive(key, s.rows) ==> CityExclusive(key, Step(key, s, r).0.rows)
    ensures CodeExclusive(s.rows) && CleanCodes(s.rows) ==> CodeExclusive(Step(key, s, r).0.rows)
  {
    if Target(s, r.op).Some? {
      StepIsSound(key, s, r);
      hide *;
      if CityExclusive(key, s.rows) {
        SoundKeepsCities(key, s.rows, Target(s, r.op).value, Step(key, s, r).0.rows);
      }
      if CodeExclusive(s.rows) && CleanCodes(s.rows) {
        SoundKeepsCodes(key, s.rows, Target(s, r.op).value, Step(key, s, r).0.rows);
      }
    } else {
      hide CityExclusive, CodeExclusive, CleanCodes;
    }
  }

  // ----- Codes -----

  lemma {:induction false} CodesOfValidated(key: CityKey, catalog: Catalog, inputs: seq<Input>, o: Official)
    requires CleanCatalog(catalog) && o in Validated(key, catalog, inputs).cities
    ensures CleanCode(o.ibge)
  {
    var n := |inputs| - 1;
    var v := Validated(key, catalog, inputs[..n]);
    hide StableKey, First, Trim, Trimmed;
    if o in v.cities {
      CodesOfValidated(key, catalog, inputs[..n], o);
    } else if inputs[n].ibge.Some? {
      TrimIsTrimmed(inputs[n].ibge.value);
    }
  }

  /** Operations only write codes of validated cities. */
  ghost predicate Written(v: Validation, before: seq<Row>, after: seq<Row>) {
    forall r | r in after :: r in before || Official(r.city, r.state, r.ibge) in v.cities
  }

  function Cities(key: CityKey, r: Request): Validation {
    match r.op
    case Add(_, input) => Validated(key, r.catalog, [input])
    case AddBulk(_, lines) => Validated(key, r.catalog, Parsed(lines))
    case ConfirmKml(_, inputs) => Validated(key, r.catalog, inputs)
    case Replace(_, inputs) => Validated(key, r.catalog, inputs)
    case Edit(_, input) => Validated(key, r.catalog, [input])
    case Delete(_) => Validated(key, r.catalog, [])
  }

  lemma InsertingIsWritten(v: Validation, before: seq<Row>, s: Store, sellerId: string, cities: seq<Official>)
    requires forall o | o in cities :: o in v.cities
    requires forall r | r in s.rows :: r in before
    ensures Written(v, before, InsertAll(s, sellerId, cities).rows)
  {
    InsertAllRows(s, sellerId, cities);
    hide InsertAll;
    var t := InsertAll(s, sellerId, cities);
    forall r | r in t.rows ensures r in before || Official(r.city, r.state, r.ibge) in v.cities {
      if r !in s.rows {
        assert r in t.rows[|s.rows|..];
        assert Made(sellerId, cities, r);
      }
    }
  }

  lemma PlannedInsertIsWritten(key: CityKey, s: Store, sellerId: string, bulk: bool, errors: seq<Error>, v: Validation)
    ensures Written(v, s.rows,
                    InsertAll(s, sellerId, Planned(key, s.rows, sellerId, bulk, errors, v.cities).create).rows)
  {
    hide FindLinked, Planned, Written, InsertAll;
    var create := Planned(key, s.rows, sellerId, bulk, errors, v.cities).create;
    forall o | o in create ensures o in v.cities {
      PlannedUnlinked(key, s.rows, sellerId, bulk, errors, v.cities, o);
    }
    InsertingIsWritten(v, s.rows, s, sellerId, create);
  }

  lemma StepWrites(key: CityKey, s: Store, r: Request)
    ensures Written(Cities(key, r), s.rows, Step(key, s, r).0.rows)
  {
    hide FindLinked, FindExisting, Validated, Planned, InsertAll, Filter, First, Taken, Parsed, BadLines;
    if Target(s, r.op).Some? {
      match r.op
      case Add(sellerId, input) =>
      case AddBulk(sellerId, lines) =>
        var v, bad := Validated(key, r.catalog, Parsed(lines)), BadLines(lines);
        PlannedInsertIsWritten(key, s, sellerId, true, bad + v.errors, v);
      case ConfirmKml(sellerId, inputs) =>
        PlannedInsertIsWritten(key, s, sellerId, false, [], Validated(key, r.catalog, inputs));
      case Replace(sellerId, inputs) =>
        var v := Validated(key, r.catalog, inputs);
        InsertingIsWritten(v, s.rows, s.(rows := Filter(s.rows, NotOf(sellerId))), sellerId, v.cities);
      case Edit(id, input) =>
      case Delete(id) =>
    }
  }

  lemma StepKeepsCodesClean(key: CityKey, s: Store, r: Request)
    requires CleanCodes(s.rows) && CleanCatalog(r.catalog)
    ensures CleanCodes(Step(key, s, r).0.rows)
  {
    StepWrites(key, s, r);
    hide Step, CleanCatalog, CleanCode, Validated, Parsed;
    var t := Step(key, s, r).0;
    forall row | row in t.rows ensures CleanCode(row.ibge) {
      if row !in s.rows {
        var o := Official(row.city, row.state, row.ibge);
        match r.op
        case Add(_, input) => CodesOfValidated(key, r.catalog, [input], o);
        case AddBulk(_, lines) => CodesOfValidated(key, r.catalog, Parsed(lines), o);
        case ConfirmKml(_, inputs) => CodesOfValidated(key, r.catalog, inputs, o);
        case Replace(_, inputs) => CodesOfValidated(key, r.catalog, inputs, o);
        case Edit(_, input) => CodesOfValidated(key, r.catalog, [input], o);
        case Delete(_) => CodesOfValidated(key, r.catalog, [], o);
      }
    }
  }

  /** While the official lists carry no code with white space around it, no IBGE code of a state is ever linked
      to two sellers either. */
  lemma {:induction false} CodesStayExclusive(key: CityKey, s: Store, requests: seq<Request>)
    requires CodeExclusive(s.rows) && CleanCodes(s.rows)
    requires forall r | r in requests :: CleanCatalog(r.catalog)
    ensures CodeExclusive(Run(key, s, requests).rows) && CleanCodes(Run(key, s, requests).rows)
  {
    hide CodeExclusive, CleanCodes, CleanCatalog, Step;
    if requests != [] {
      var n := |requests| - 1;
      CodesStayExclusive(key, s, requests[..n]);
      StepCases(key, Run(key, s, requests[..n]), requests[n]);
      StepKeepsCodesClean(key, Run(key, s, requests[..n]), requests[n]);
    }
  }

  /** Another seller stores the code of `o` with white space around it. */
  ghost predicate SpacedTwin(rows: seq<Row>, sellerId: string, o: Official) {
    exists r | r in rows :: r.sellerId != sellerId && r.state == o.state && !CleanCode(r.ibge)
                            && Code(o.ibge).Some? && Code(r.ibge) == Code(o.ibge)
  }

  /** A city that passed the check keeps codes exclusive exactly when no other seller's row spells its code with
      white space around it: the search compares the stored code untrimmed. */
  lemma LinkingKeepsCodes(key: CityKey, s: Store, sellerId: string, o: Official)
    requires CodeExclusive(s.rows) && FindLinked(key, s.rows, sellerId, o).None?
    ensures CodeExclusive(s.rows + [NewRow(s.nextId, sellerId, o)]) <==> !SpacedTwin(s.rows, sellerId, o)
  {
    LinkedExactly(key, s.rows, sellerId, o);
    hide FindLinked, Trim, Trimmed;
    var row := NewRow(s.nextId, sellerId, o);
    var after := s.rows + [row];
    if SpacedTwin(s.rows, sellerId, o) {
      var r :| r in s.rows && r.sellerId != sellerId && r.state == o.state && !CleanCode(r.ibge)
               && Code(o.ibge).Some? && Code(r.ibge) == Code(o.ibge);
      assert r in after && row in after && !CodeApart(r, row);
    } else {
      forall a, b | a in after && b in after ensures CodeApart(a, b) {
        if a in s.rows && b !in s.rows {
          TwinOrApart(s.rows, sellerId, o, a, s.nextId);
        } else if a !in s.rows && b in s.rows {
          TwinOrApart(s.rows, sellerId, o, b, s.nextId);
        }
      }
    }
  }

  lemma TwinOrApart(rows: seq<Row>, sellerId: string, o: Official, r: Row, id: nat)
    requires r in rows && !SpacedTwin(rows, sellerId, o)
    requires r.sellerId != sellerId && r.state == o.state && Code(o.ibge).Some? ==> r.ibge != Code(o.ibge)
    ensures CodeApart(r, NewRow(id, sellerId, o)) && CodeApart(NewRow(id, sellerId, o), r)
  {
    CleanCodeIsCode(r.ibge);
    hide Code, CleanCode;
  }

  function IsolatedPlace(city: string): Catalog {
    u => [Place(city, Some(" 7"))]
  }

  function SameText(): CityKey {
    s => s
  }

  /** An official list with a spaced code breaks exclusivity: the second seller is not told about the first. */
  lemma SpacedCodeLinkedTwice()
    ensures var s := Store([Row(0, "a", "x", PR, Some(" 7"))], 1);
            var r := Request(Add("b", Input("y", PR, None)), IsolatedPlace("y"), _ => None);
            CodeExclusive(s.rows) && Step(SameText(), s, r).1 == Done(201, 1, [])
              && !CodeExclusive(Step(SameText(), s, r).0.rows)
  {
    var first := Row(0, "a", "x", PR, Some(" 7"));
    var s := Store([first], 1);
    var input, o := Input("y", PR, None), Official("y", PR, Some(" 7"));
    var r := Request(Add("b", input), IsolatedPlace("y"), _ => None);
    SpacedCode();
    SpacedCityAccepted();
    SpacedCityUnlinked(first, o);
    assert "a" != "b" by {
      assert "a"[0] != "b"[0];
    }
    AddGoesThrough(SameText(), s, r, o);
    hide Validated, FindExisting, FindLinked, Trim, Code, Step;
    var after := Step(SameText(), s, r).0.rows;
    assert after[0] == first && after[1] == NewRow(1, "b", o);
    assert !CodeApart(after[0], after[1]);
  }

  lemma AddGoesThrough(key: CityKey, s: Store, r: Request, o: Official)
    requires r.op.Add? && r.access(r.op.sellerId).None?
    requires Validated(key, r.catalog, [r.op.input]).errors == []
             && Validated(key, r.catalog, [r.op.input]).cities == [o]
    requires FindExisting(key, s.rows, r.op.sellerId, o).None? && FindLinked(key, s.rows, r.op.sellerId, o).None?
    ensures Step(key, s, r) == (Store(s.rows + [NewRow(s.nextId, r.op.sellerId, o)], s.nextId + 1), Done(201, 1, []))
  {
    hide Validated, FindExisting, FindLinked;
  }

  lemma SpacedCityAccepted()
    ensures var v := Validated(SameText(), IsolatedPlace("y"), [Input("y", PR, None)]);
            v.errors == [] && v.cities == [Official("y", PR, Some(" 7"))]
  {
    hide StableKey, Trim;
    var input := Input("y", PR, None);
    assert FindOfficial(SameText(), IsolatedPlace("y"), input) == Some(Official("y", PR, Some(" 7")));
    assert [input][..0] == [];
    assert Validated(SameText(), IsolatedPlace("y"), [input][..0]) == Validation({}, [], []);
  }

  lemma SpacedCityUnlinked(first: Row, o: Official)
    requires first == Row(0, "a", "x", PR, Some(" 7")) && o == Official("y", PR, Some(" 7"))
    ensures FindExisting(SameText(), [first], "b", o).None? && FindLinked(SameText(), [first], "b", o).None?
  {
    SpacedCode();
    LinkedExactly(SameText(), [first], "b", o);
    assert "x"[0] != "y"[0] && "a"[0] != "b"[0];
    hide FindLinked, Trim, Code, NormalizedKey;
    assert [first][..0] == [];
    assert !InStateOf("b", PR)(first);
    assert Filter([first], InStateOf("b", PR)) == [];
  }

  lemma OneSpaceOneDigit()
    ensures IsSpace(' ') && !IsSpace('7')
  {
  }

  lemma LeadingSpaceTrimmed(s: string)
    requires |s| == 2 && IsSpace(s[0]) && !IsSpace(s[1])
    ensures Trim(s) == s[1..] && s[1..] != s
  {
    hide IsSpace;
    assert TrimStart(s[1..]) == s[1..];
    assert TrimStart(s) == s[1..];
  }

  lemma SpacedCode()
    ensures Code(Some(" 7")) == Some(" 7"[1..]) && " 7" != " 7"[1..]
  {
    OneSpaceOneDigit();
    hide IsSpace, Trim;
    LeadingSpaceTrimmed(" 7");
  }

  // ----- The indexes, and what an operation leaves alone -----

  predicate RowsApart(a: Row, b: Row) {
    a.id != b.id && !(a.sellerId == b.sellerId && a.state == b.state && a.city == b.city)
  }

  /** The primary key and the unique index on seller, state and city. */
  ghost predicate Indexed(s: Store) {
    && (forall i, j | 0 <= i < j < |s.rows| :: RowsApart(s.rows[i], s.rows[j]))
    && (forall r | r in s.rows :: r.id < s.nextId)
  }

  lemma {:induction false} InsertAllIndexed(s: Store, sellerId: string, cities: seq<Official>)
    requires Indexed(s)
    ensures Indexed(InsertAll(s, sellerId, cities))
  {
    if cities != [] {
      InsertAllIndexed(s, sellerId, cities[..|cities| - 1]);
    }
  }

  lemma {:induction false} FilterIndexed(rows: seq<Row>, nextId: nat, p: Row -> bool)
    requires Indexed(Store(rows, nextId))
    ensures Indexed(Store(Filter(rows, p), nextId))
  {
    if rows != [] {
      FilterIndexed(rows[..|rows| - 1], nextId, p);
    }
  }

  lemma EditIndexed(s: Store, current: Row, o: Official)
    requires Indexed(s) && current in s.rows && !Taken(Filter(s.rows, NotId(current.id)), current.sellerId, o)
    ensures Indexed(s.(rows := Replaced(s.rows, current, o)))
  {
    var after := Replaced(s.rows, current, o);
    forall r | r in s.rows && r.id != current.id ensures !SameTriple(r, current.sellerId, o) {
      assert NotId(current.id)(r) && r in Filter(s.rows, NotId(current.id));
    }
    forall i, j | 0 <= i < j < |after| ensures RowsApart(after[i], after[j]) {
      assert RowsApart(s.rows[i], s.rows[j]);
    }
  }

  /** Every operation keeps both indexes: a plain `create` never runs into the unique index. */
  lemma StepKeepsIndexes(key: CityKey, s: Store, r: Request)
    requires Indexed(s)
    ensures Indexed(Step(key, s, r).0)
  {
    hide Indexed, FindLinked, FindExisting, Validated, Planned, InsertAll, First, Taken, Parsed, BadLines, Filter;
    if Target(s, r.op).Some? {
      match r.op
      case Add(sellerId, input) => AddIndexed(key, s, sellerId, Validated(key, r.catalog, [input]));
      case AddBulk(sellerId, lines) =>
        var v, bad := Validated(key, r.catalog, Parsed(lines)), BadLines(lines);
        InsertAllIndexed(s, sellerId, Planned(key, s.rows, sellerId, true, bad + v.errors, v.cities).create);
      case ConfirmKml(sellerId, inputs) =>
        InsertAllIndexed(s, sellerId,
                         Planned(key, s.rows, sellerId, false, [], Validated(key, r.catalog, inputs).cities).create);
      case Replace(sellerId, inputs) =>
        FilterIndexed(s.rows, s.nextId, NotOf(sellerId));
        InsertAllIndexed(s.(rows := Filter(s.rows, NotOf(sellerId))), sellerId,
                         Validated(key, r.catalog, inputs).cities);
      case Edit(id, input) =>
        var v := Validated(key, r.catalog, [input]);
        var current := First(s.rows, HasId(id)).value;
        if v.cities != [] && !Taken(Filter(s.rows, NotId(current.id)), current.sellerId, v.cities[0]) {
          EditIndexed(s, current, v.cities[0]);
        }
      case Delete(id) => FilterIndexed(s.rows, s.nextId, NotId(id));
    }
  }

  lemma AddIndexed(key: CityKey, s: Store, sellerId: string, v: Validation)
    requires Indexed(s)
    ensures Indexed(AddStep(key, s, sellerId, v).0)
  {
    if v.cities != [] && FindExisting(key, s.rows, sellerId, v.cities[0]).None? {
      NotExistingIsFree(key, s.rows, sellerId, v.cities[0]);
      assert Insert(s, sellerId, v.cities[0])
        == Store(s.rows + [NewRow(s.nextId, sellerId, v.cities[0])], s.nextId + 1);
      InsertIndexed(s, sellerId, v.cities[0]);
    }
    hide FindExisting, FindLinked, Indexed, Insert;
  }

  lemma InsertIndexed(s: Store, sellerId: string, o: Official)
    requires Indexed(s)
    ensures Indexed(Insert(s, sellerId, o))
  {
    var after := Insert(s, sellerId, o).rows;
    forall i, j | 0 <= i < j < |after| ensures RowsApart(after[i], after[j]) {
      if j < |s.rows| {
        assert RowsApart(s.rows[i], s.rows[j]);
      } else {
        assert s.rows[i] in s.rows && !SameTriple(s.rows[i], sellerId, o);
      }
    }
  }

  lemma NotExistingIsFree(key: CityKey, rows: seq<Row>, sellerId: string, o: Official)
    requires FindExisting(key, rows, sellerId, o).None?
    ensures !Taken(rows, sellerId, o)
  {
    hide Filter, First, Code, NormalizedKey;
    forall r | r in rows && InStateOf(sellerId, o.state)(r) ensures !RowNamed(key, o)(r) {
      assert r in Filter(rows, InStateOf(sellerId, o.state));
    }
  }

  lemma {:induction false} InsertAllOthers(s: Store, sellerId: string, cities: seq<Official>, r: Row)
    requires r.sellerId != sellerId
    ensures r in InsertAll(s, sellerId, cities).rows <==> r in s.rows
  {
    if cities != [] {
      InsertAllOthers(s, sellerId, cities[..|cities| - 1], r);
    }
  }

  /** No operation touches a row of any seller but its own. */
  lemma OthersUntouched(key: CityKey, s: Store, req: Request, r: Row)
    requires Indexed(s) && Target(s, req.op).Some? && r.sellerId != Target(s, req.op).value
    ensures r in Step(key, s, req).0.rows <==> r in s.rows
  {
    hide FindLinked, FindExisting, Validated, Planned, InsertAll, First, Taken, Parsed, BadLines, Filter;
    match req.op
    case Add(sellerId, input) =>
    case AddBulk(sellerId, lines) =>
      var v, bad := Validated(key, req.catalog, Parsed(lines)), BadLines(lines);
      InsertAllOthers(s, sellerId, Planned(key, s.rows, sellerId, true, bad + v.errors, v.cities).create, r);
    case ConfirmKml(sellerId, inputs) =>
      InsertAllOthers(s, sellerId,
                      Planned(key, s.rows, sellerId, false, [], Validated(key, req.catalog, inputs).cities).create, r);
    case Replace(sellerId, inputs) =>
      InsertAllOthers(s.(rows := Filter(s.rows, NotOf(sellerId))), sellerId,
                      Validated(key, req.catalog, inputs).cities, r);
      assert NotOf(sellerId)(r);
    case Edit(id, input) =>
      var current := First(s.rows, HasId(id)).value;
      if r in s.rows {
        OtherRowOtherId(s, current, r);
        var i :| 0 <= i < |s.rows| && s.rows[i] == r;
        forall o ensures Replaced(s.rows, current, o)[i] == r {
        }
      }
    case Delete(id) =>
      var current := First(s.rows, HasId(id)).value;
      if r in s.rows {
        OtherRowOtherId(s, current, r);
      }
      assert NotId(id)(r) <==> r.id != id;
  }

  lemma OtherRowOtherId(s: Store, a: Row, b: Row)
    requires Indexed(s) && a in s.rows && b in s.rows && a != b
    ensures a.id != b.id
  {
    var i :| 0 <= i < |s.rows| && s.rows[i] == a;
    var j :| 0 <= j < |s.rows| && s.rows[j] == b;
    assert i < j ==> RowsApart(s.rows[i], s.rows[j]);
    assert j < i ==> RowsApart(s.rows[j], s.rows[i]);
  }

  predicate Holds(rows: seq<Row>, sellerId: string, state: Uf, city: string) {
    exists r | r in rows :: r.sellerId == sellerId && r.state == state && r.city == city
  }

  predicate Listed(cities: seq<Official>, state: Uf, city: string) {
    exists o | o in cities :: o.state == state && o.city == city
  }

  lemma {:induction false} InsertAllHolds(s: Store, sellerId: string, cities: seq<Official>, state: Uf, city: string)
    ensures Holds(InsertAll(s, sellerId, cities).rows, sellerId, state, city)
            <==> Holds(s.rows, sellerId, state, city) || Listed(cities, state, city)
  {
    if cities != [] {
      var n := |cities| - 1;
      InsertAllHolds(s, sellerId, cities[..n], state, city);
      var before, o := InsertAll(s, sellerId, cities[..n]), cities[n];
      assert cities == cities[..n] + [o];
      assert Listed(cities, state, city) <==> Listed(cities[..n], state, city) || (o.state == state && o.city == city);
      InsertHolds(before, sellerId, o, state, city);
    }
  }

  lemma InsertHolds(s: Store, sellerId: string, o: Official, state: Uf, city: string)
    ensures Holds(Insert(s, sellerId, o).rows, sellerId, state, city)
            <==> Holds(s.rows, sellerId, state, city) || (o.state == state && o.city == city)
  {
    var row, after := NewRow(s.nextId, sellerId, o), Insert(s, sellerId, o).rows;
    assert forall r | r in s.rows :: r in after;
    if !Taken(s.rows, sellerId, o) {
      assert row in after;
    }
  }

  /** A replacement that succeeds leaves the seller with exactly the cities asked for. */
  lemma ReplaceIsExact(key: CityKey, s: Store, r: Request, state: Uf, city: string)
    requires r.op.Replace? && Step(key, s, r).1.Done?
    ensures Holds(Step(key, s, r).0.rows, r.op.sellerId, state, city)
            <==> Listed(Validated(key, r.catalog, r.op.inputs).cities, state, city)
  {
    hide FindConflict, Validated, InsertAll;
    var cleared := s.(rows := Filter(s.rows, NotOf(r.op.sellerId)));
    InsertAllHolds(cleared, r.op.sellerId, Validated(key, r.catalog, r.op.inputs).cities, state, city);
    assert forall row | row in cleared.rows :: NotOf(r.op.sellerId)(row);
  }

  /** `k` was among the seller's keys before, or belongs to a city the plan creates. */
  ghost predicate Covered(key: CityKey, rows: seq<Row>, sellerId: string, create: seq<Official>, k: string) {
    k in OwnKeys(key, rows, sellerId) || exists c | c in create :: StableKey(key, c.state, c.city, c.ibge) == k
  }

  lemma {:induction false} PlannedCovers(key: CityKey, rows: seq<Row>, sellerId: string, cities: seq<Official>)
    requires Planned(key, rows, sellerId, false, [], cities).conflict.None?
    ensures var p := Planned(key, rows, sellerId, false, [], cities);
            && (forall k | k in p.keys :: Covered(key, rows, sellerId, p.create, k))
            && (forall o | o in cities :: StableKey(key, o.state, o.city, o.ibge) in p.keys)
  {
    if cities != [] {
      var n := |cities| - 1;
      var q, p := Planned(key, rows, sellerId, false, [], cities[..n]), Planned(key, rows, sellerId, false, [], cities);
      PlannedCovers(key, rows, sellerId, cities[..n]);
      hide FindLinked, StableKey, OwnKeys, Planned;
      forall k | k in p.keys ensures Covered(key, rows, sellerId, p.create, k) {
        if k in q.keys {
          assert Covered(key, rows, sellerId, q.create, k);
        } else {
          assert cities[n] in p.create;
        }
      }
    }
  }

  /** A confirmation that succeeds leaves no requested city out: the seller had its key already, or now holds a
      city with that key. */
  lemma ConfirmLeavesNoneOut(key: CityKey, s: Store, r: Request, o: Official)
    requires r.op.ConfirmKml? && Step(key, s, r).1.Done?
    requires o in Validated(key, r.catalog, r.op.inputs).cities
    ensures var k := StableKey(key, o.state, o.city, o.ibge);
            || k in OwnKeys(key, s.rows, r.op.sellerId)
            || exists c: Official :: StableKey(key, c.state, c.city, c.ibge) == k
                                     && Holds(Step(key, s, r).0.rows, r.op.sellerId, c.state, c.city)
  {
    hide Validated, StableKey, OwnKeys, FindLinked, InsertAll, Planned;
    var cities := Validated(key, r.catalog, r.op.inputs).cities;
    PlannedCovers(key, s.rows, r.op.sellerId, cities);
    var create := Planned(key, s.rows, r.op.sellerId, false, [], cities).create;
    var k := StableKey(key, o.state, o.city, o.ibge);
    assert Covered(key, s.rows, r.op.sellerId, create, k);
    if k !in OwnKeys(key, s.rows, r.op.sellerId) {
      var c :| c in create && StableKey(key, c.state, c.city, c.ibge) == k;
      InsertAllHolds(s, r.op.sellerId, create, c.state, c.city);
      assert Listed(create, c.state, c.city);
    }
  }

  // ----- The operations on the table itself -----

  class TerritoryTable {
    const key: CityKey
    var rows: seq<Row>
    var nextId: nat

    constructor (key: CityKey)
      ensures this.key == key && Now() == Store([], 0)
    {
      this.key, rows, nextId := key, [], 0;
    }

    function Now(): Store
      reads this
    {
      Store(rows, nextId)
    }

    /** `createMany` with `skipDuplicates`. */
    method CreateMany(sellerId: string, cities: seq<Official>)
      modifies this
      ensures Now() == InsertAll(old(Now()), sellerId, cities)
    {
      for i := 0 to |cities|
        invariant Now() == InsertAll(old(Now()), sellerId, cities[..i])
      {
        assert cities[..i + 1][..i] == cities[..i];
        if !exists r | r in rows :: SameTriple(r, sellerId, cities[i]) {
          rows, nextId := rows + [NewRow(nextId, sellerId, cities[i])], nextId + 1;
        }
      }
      assert cities[..|cities|] == cities;
    }

    method PostCity(sellerId: string, input: Input, catalog: Catalog,
                    access: string -> Option<nat>) returns (reply: Reply)
      modifies this
      ensures (Now(), reply) == Step(key, old(Now()), Request(Add(sellerId, input), catalog, access))
    {
      hide Validated, FindExisting, FindLinked;
      if access(sellerId).Some? {
        return Refused(access(sellerId).value, []);
      }
      var cities, errors := ValidateOfficialCities(key, catalog, [input]);
      if errors != [] || cities == [] {
        return Refused(400, errors);
      }
      var existing := FindExisting(key, rows, sellerId, cities[0]);
      if existing.Some? {
        return Refused(409, []);
      }
      var conflict := FindLinked(key, rows, sellerId, cities[0]);
      if conflict.Some? {
        return Refused(409, []);
      }
      rows, nextId := rows + [NewRow(nextId, sellerId, cities[0])], nextId + 1;
      reply := Done(201, 1, []);
    }

    method PostCitiesBulk(sellerId: string, lines: seq<Option<Input>>, catalog: Catalog, access: string -> Option<nat>)
      returns (reply: Reply)
      modifies this
      ensures (Now(), reply) == Step(key, old(Now()), Request(AddBulk(sellerId, lines), catalog, access))
    {
      hide Validated, FindLinked, StableKey, OwnKeys, Parsed, BadLines;
      if access(sellerId).Some? {
        return Refused(access(sellerId).value, []);
      }
      var cities, invalid := ValidateOfficialCities(key, catalog, Parsed(lines));
      var errors := BadLines(lines) + invalid;
      ghost var bad := errors;
      var keys, create := OwnKeys(key, rows, sellerId), [];
      for i := 0 to |cities|
        invariant Now() == old(Now())
        invariant Plan(keys, create, errors, None) == Planned(key, rows, sellerId, true, bad, cities[..i])
      {
        assert cities[..i + 1][..i] == cities[..i];
        var k := StableKey(key, cities[i].state, cities[i].city, cities[i].ibge);
        if k in keys {
          errors := errors + [AlreadyLinked];
        } else {
          var conflict := FindLinked(key, rows, sellerId, cities[i]);
          if conflict.Some? {
            errors := errors + [TakenBy(conflict.value.sellerId)];
          } else {
            keys, create := keys + {k}, create + [cities[i]];
          }
        }
      }
      assert cities[..|cities|] == cities;
      CreateMany(sellerId, create);
      reply := Done(201, |create|, errors);
    }

    method PostKmlConfirm(sellerId: string, inputs: seq<Input>, catalog: Catalog, access: string -> Option<nat>)
      returns (reply: Reply)
      modifies this
      ensures (Now(), reply) == Step(key, old(Now()), Request(ConfirmKml(sellerId, inputs), catalog, access))
    {
      hide Validated, FindLinked, StableKey, OwnKeys;
      if access(sellerId).Some? {
        return Refused(access(sellerId).value, []);
      }
      var cities, errors := ValidateOfficialCities(key, catalog, inputs);
      if errors != [] {
        return Refused(400, errors);
      }
      var keys, create := OwnKeys(key, rows, sellerId), [];
      for i := 0 to |cities|
        invariant Now() == old(Now())
        invariant Plan(keys, create, [], None) == Planned(key, rows, sellerId, false, [], cities[..i])
      {
        assert cities[..i + 1][..i] == cities[..i];
        var k := StableKey(key, cities[i].state, cities[i].city, cities[i].ibge);
        if k !in keys {
          var conflict := FindLinked(key, rows, sellerId, cities[i]);
          if conflict.Some? {
            PlanStopped(key, rows, sellerId, cities, i + 1);
            return Refused(409, []);
          }
          keys, create := keys + {k}, create + [cities[i]];
        }
      }
      assert cities[..|cities|] == cities;
      CreateMany(sellerId, create);
      reply := Done(201, |create|, []);
    }

    method PutSellerCities(sellerId: string, inputs: seq<Input>, catalog: Catalog, access: string -> Option<nat>)
      returns (reply: Reply)
      modifies this
      ensures (Now(), reply) == Step(key, old(Now()), Request(Replace(sellerId, inputs), catalog, access))
    {
      hide Validated, FindLinked, InsertAll, Filter;
      if access(sellerId).Some? {
        return Refused(access(sellerId).value, []);
      }
      var cities, errors := ValidateOfficialCities(key, catalog, inputs);
      if errors != [] {
        return Refused(400, errors);
      }
      for i := 0 to |cities|
        invariant FindConflict(key, rows, sellerId, cities) == FindConflict(key, rows, sellerId, cities[i..])
        invariant Now() == old(Now())
      {
        var conflict := FindLinked(key, rows, sellerId, cities[i]);
        if conflict.Some? {
          return Refused(409, []);
        }
      }
      rows := Filter(rows, NotOf(sellerId));
      CreateMany(sellerId, cities);
      reply := Done(200, |cities|, []);
    }

    method PutCity(id: nat, input: Input, catalog: Catalog, access: string -> Option<nat>) returns (reply: Reply)
      modifies this
      ensures (Now(), reply) == Step(key, old(Now()), Request(Edit(id, input), catalog, access))
    {
      hide Validated, FindExisting, FindLinked, First, Taken, Filter;
      var current := First(rows, HasId(id));
      if current.None? {
        return Refused(404, []);
      }
      var sellerId := current.value.sellerId;
      if access(sellerId).Some? {
        return Refused(access(sellerId).value, []);
      }
      var cities, errors := ValidateOfficialCities(key, catalog, [input]);
      if errors != [] || cities == [] {
        return Refused(400, errors);
      }
      var existing := FindExisting(key, rows, sellerId, cities[0]);
      if existing.Some? && existing.value.id != current.value.id {
        return Refused(409, []);
      }
      var conflict := FindLinked(key, rows, sellerId, cities[0]);
      if conflict.Some? {
        return Refused(409, []);
      }
      if Taken(Filter(rows, NotId(current.value.id)), sellerId, cities[0]) {
        return Refused(500, []);   // the unique index refuses the update
      }
      rows := Replaced(rows, current.value, cities[0]);
      reply := Done(200, 0, []);
    }

    method DeleteCity(id: nat, catalog: Catalog, access: string -> Option<nat>) returns (reply: Reply)
      modifies this
      ensures (Now(), reply) == Step(key, old(Now()), Request(Delete(id), catalog, access))
    {
      var current := First(rows, HasId(id));
      if current.None? {
        return Refused(404, []);
      }
      if access(current.value.sellerId).Some? {
        return Refused(access(current.value.sellerId).value, []);
      }
      rows := Filter(rows, NotId(id));
      reply := Done(204, 0, []);
    }
  }

  /** Once confirmation has met a conflict, the cities after it change nothing. */
  lemma {:induction false} PlanStopped(key: CityKey, rows: seq<Row>, sellerId: string, cities: seq<Official>, i: nat)
    requires i <= |cities| && Planned(key, rows, sellerId, false, [], cities[..i]).conflict.Some?
    ensures Planned(key, rows, sellerId, false, [], cities) == Planned(key, rows, sellerId, false, [], cities[..i])
    decreases |cities| - i
  {
    if i < |cities| {
      assert cities[..i + 1][..i] == cities[..i];
      PlanStopped(key, rows, sellerId, cities, i + 1);
    } else {
      assert cities[..i] == cities;
    }
  }
}
