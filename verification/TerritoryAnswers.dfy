/** What each territory route answers (`apps/api/src/routes/crudRoutes.ts`), told from the request, the official list
    and the rows of the table. */
module TerritoryAnswers {
  import opened Text
  import Grouping
  import opened Territory

  // ----- The official city a request names -----

  /** The request gives a code, and it is the place's. */
  predicate ByCode(p: Place, input: Input) {
    input.ibge.Some? && Trim(input.ibge.value) != "" && p.ibge == Some(Trim(input.ibge.value))
  }

  predicate ByName(key: CityKey, p: Place, input: Input) {
    key(p.city) == key(input.city)
  }

  ghost predicate SomeByCode(places: seq<Place>, input: Input) {
    exists p | p in places :: ByCode(p, input)
  }

  /** The `i`-th place of the list is the one the request names: the first with its code or, when no place has its code,
      the first with its name. */
  ghost predicate Named(key: CityKey, places: seq<Place>, input: Input, i: nat) {
    && i < |places|
    && if SomeByCode(places, input) then ByCode(places[i], input) && forall j | 0 <= j < i :: !ByCode(places[j], input)
       else ByName(key, places[i], input) && forall j | 0 <= j < i :: !ByName(key, places[j], input)
  }

  /** `o` is the official city of that place. */
  ghost predicate Means(key: CityKey, catalog: Catalog, input: Input, o: Official) {
    exists i: nat :: Named(key, catalog(input.state), input, i)
                     && o == Official(catalog(input.state)[i].city, input.state, catalog(input.state)[i].ibge)
  }

  /** Neither its code nor its name is in the list. */
  ghost predicate Unknown(key: CityKey, catalog: Catalog, input: Input) {
    forall p | p in catalog(input.state) :: !ByCode(p, input) && !ByName(key, p, input)
  }

  lemma {:induction false} FirstIsFirst<T>(s: seq<T>, p: T -> bool) returns (i: nat)
    ensures First(s, p).Some? ==> i < |s| && First(s, p) == Some(s[i]) && p(s[i]) && forall j | 0 <= j < i :: !p(s[j])
    ensures First(s, p).None? ==> forall x | x in s :: !p(x)
  {
    i := 0;
    if s != [] && !p(s[0]) {
      var k := FirstIsFirst(s[1..], p);
      i := k + 1;
      forall j | 0 <= j < i && First(s, p).Some? ensures !p(s[j]) {
        assert j > 0 ==> s[j] == s[1..][j - 1];
      }
    }
  }

  /** The search answers with the city the request names and nothing else; nothing exactly when the list has neither its
      code nor its name. */
  lemma FindsWhatIsNamed(key: CityKey, catalog: Catalog, input: Input)
    ensures forall o :: FindOfficial(key, catalog, input) == Some(o) <==> Means(key, catalog, input, o)
    ensures FindOfficial(key, catalog, input) == None <==> Unknown(key, catalog, input)
  {
    var places := catalog(input.state);
    var code := Code(input.ibge);
    var i: nat := 0;
    if code.Some? {
      i := FirstIsFirst(places, PlaceWithCode(code.value));
    }
    var k := FirstIsFirst(places, PlaceNamed(key, input.city));
    forall p ensures ByCode(p, input) <==> code.Some? && PlaceWithCode(code.value)(p) {
    }
    forall p ensures ByName(key, p, input) <==> PlaceNamed(key, input.city)(p) {
    }
    hide First, Code, ByCode, ByName;
    if code.Some? && First(places, PlaceWithCode(code.value)).Some? {
      assert places[i] in places;
      OnlyOneNamed(key, places, input, i);
    } else if First(places, PlaceNamed(key, input.city)).Some? {
      OnlyOneNamed(key, places, input, k);
      assert places[k] in places;
    } else {
      forall j: nat ensures !Named(key, places, input, j) {
        assert j < |places| ==> places[j] in places;
      }
    }
  }

  lemma OnlyOneNamed(key: CityKey, places: seq<Place>, input: Input, i: nat)
    requires Named(key, places, input, i)
    ensures forall j: nat | Named(key, places, input, j) :: j == i
  {
    hide ByCode, ByName, SomeByCode;
  }

  // ----- Lists of requests -----

  /** The official code or, when the list has none, the one of the request. */
  function Filled(o: Official, input: Input): Official {
    match (o.ibge, input.ibge)
    case (None, Some(code)) => Official(o.city, o.state, Some(Trim(code)))
    case _ => o
  }

  predicate HasCode(ibge: Option<string>) {
    ibge.Some? && Trim(ibge.value) != ""
  }

  /** One city to the routes: the same state and trimmed code or, when neither has a code, the same normalised name. */
  predicate SameCity(key: CityKey, a: Official, b: Official) {
    && a.state == b.state
    && if HasCode(a.ibge) && HasCode(b.ibge) then Trim(a.ibge.value) == Trim(b.ibge.value)
       else if !HasCode(a.ibge) && !HasCode(b.ibge) then key(a.city) == key(b.city)
       else if HasCode(a.ibge) then key(b.city) == "IBGE::" + Trim(a.ibge.value)
       else key(a.city) == "IBGE::" + Trim(b.ibge.value)
  }

  function KeyOf(key: CityKey, o: Official): string {
    StableKey(key, o.state, o.city, o.ibge)
  }

  lemma StableKeysTellApart(key: CityKey, a: Official, b: Official)
    ensures KeyOf(key, a) == KeyOf(key, b) <==> SameCity(key, a, b)
  {
    var x, y := KeyAfterState(key, a), KeyAfterState(key, b);
    KeySplits(key, a);
    KeySplits(key, b);
    hide Trim, StableKey, StateText;
    StatesTellApart(a.state, x, b.state, y);
    if HasCode(a.ibge) && HasCode(b.ibge) {
      SamePrefix("IBGE::", Trim(a.ibge.value), Trim(b.ibge.value));
    }
  }

  function KeyAfterState(key: CityKey, o: Official): string {
    if HasCode(o.ibge) then "IBGE::" + Trim(o.ibge.value) else key(o.city)
  }

  lemma KeySplits(key: CityKey, o: Official)
    ensures KeyOf(key, o) == StateText(o.state) + "::" + KeyAfterState(key, o)
  {
    hide Trim, StateText;
    if HasCode(o.ibge) {
      var t, code := StateText(o.state), Trim(o.ibge.value);
      assert t + "::IBGE::" + code == t + "::" + ("IBGE::" + code);
    }
  }

  lemma StatesTellApart(s: Uf, x: string, t: Uf, y: string)
    ensures StateText(s) + "::" + x == StateText(t) + "::" + y <==> s == t && x == y
  {
    var a, b := StateText(s) + "::" + x, StateText(t) + "::" + y;
    assert a[..2] == StateText(s) && b[..2] == StateText(t);
    assert a[4..] == x && b[4..] == y;
    assert StateText(s) == StateText(t) ==> s == t by {
      assert StateText(s)[0] == StateText(t)[0] ==> s == t;
    }
  }

  lemma SamePrefix(p: string, x: string, y: string)
    ensures p + x == p + y <==> x == y
  {
    assert (p + x)[|p|..] == x && (p + y)[|p|..] == y;
  }

  /** Some request of the list means a city that is one with `o`. */
  ghost predicate NamedBefore(key: CityKey, catalog: Catalog, inputs: seq<Input>, o: Official) {
    exists m, q :: 0 <= m < |inputs| && Means(key, catalog, inputs[m], q) && SameCity(key, o, q)
  }

  ghost predicate SeenFor(key: CityKey, catalog: Catalog, inputs: seq<Input>, k: string) {
    exists m, q :: 0 <= m < |inputs| && Means(key, catalog, inputs[m], q) && KeyOf(key, q) == k
  }

  lemma NamedBeforeIsSeen(key: CityKey, catalog: Catalog, inputs: seq<Input>, o: Official)
    ensures NamedBefore(key, catalog, inputs, o) <==> SeenFor(key, catalog, inputs, KeyOf(key, o))
  {
    forall q ensures SameCity(key, o, q) <==> KeyOf(key, q) == KeyOf(key, o) {
      StableKeysTellApart(key, o, q);
    }
    hide SameCity, KeyOf, Means;
    if m, q :| 0 <= m < |inputs| && Means(key, catalog, inputs[m], q) && SameCity(key, o, q) {
      assert KeyOf(key, q) == KeyOf(key, o);
    }
    if m, q :| 0 <= m < |inputs| && Means(key, catalog, inputs[m], q) && KeyOf(key, q) == KeyOf(key, o) {
      assert SameCity(key, o, q);
    }
  }

  lemma SeenForLast(key: CityKey, catalog: Catalog, inputs: seq<Input>, k: string)
    requires inputs != []
    ensures var init, last := inputs[..|inputs| - 1], inputs[|inputs| - 1];
            SeenFor(key, catalog, inputs, k) <==>
              SeenFor(key, catalog, init, k) || exists q :: Means(key, catalog, last, q) && KeyOf(key, q) == k
  {
    hide Means, KeyOf;
    var n := |inputs| - 1;
    if m, q :| 0 <= m < |inputs| && Means(key, catalog, inputs[m], q) && KeyOf(key, q) == k {
      assert m < n ==> inputs[..n][m] == inputs[m];
    }
    if m, q :| 0 <= m < n && Means(key, catalog, inputs[..n][m], q) && KeyOf(key, q) == k {
      assert inputs[..n][m] == inputs[m];
    }
  }

  lemma ValidateOneAnswers(key: CityKey, catalog: Catalog, v: Validation, input: Input)
    ensures var w := ValidateOne(key, catalog, v, input);
            && (Unknown(key, catalog, input) ==> w == v.(errors := v.errors + [NotFound]))
            && (forall o | Means(key, catalog, input, o) ::
                  w == if KeyOf(key, o) in v.seen then v.(errors := v.errors + [AlreadyLinked])
                       else Validation(v.seen + {KeyOf(key, o)}, v.cities + [Filled(o, input)], v.errors))
            && (!Unknown(key, catalog, input) ==> exists o :: Means(key, catalog, input, o))
  {
    FindsWhatIsNamed(key, catalog, input);
    hide FindOfficial, StableKey, Means, Unknown, Trim;
    if !Unknown(key, catalog, input) {
      assert Means(key, catalog, input, FindOfficial(key, catalog, input).value);
    }
    forall o ensures Accepted(o, input) == Filled(o, input) {
    }
  }

  /** The keys remembered are those of the cities named so far. */
  lemma {:induction false} SeenAreNamed(key: CityKey, catalog: Catalog, inputs: seq<Input>)
    ensures forall k :: k in Validated(key, catalog, inputs).seen <==> SeenFor(key, catalog, inputs, k)
  {
    if inputs != [] {
      var init, last := inputs[..|inputs| - 1], inputs[|inputs| - 1];
      SeenAreNamed(key, catalog, init);
      ValidateOneAnswers(key, catalog, Validated(key, catalog, init), last);
      FindsWhatIsNamed(key, catalog, last);
      forall k ensures k in Validated(key, catalog, inputs).seen <==> SeenFor(key, catalog, inputs, k) {
        SeenForLast(key, catalog, inputs, k);
        NoneUnknown(key, catalog, last);
        hide SeenFor, Means, Unknown, ValidateOne, KeyOf, FindOfficial;
      }
    }
  }

  lemma NoneUnknown(key: CityKey, catalog: Catalog, input: Input)
    ensures Unknown(key, catalog, input) ==> forall o :: !Means(key, catalog, input, o)
  {
    FindsWhatIsNamed(key, catalog, input);
    hide FindOfficial, Means, Unknown;
  }

  /** One request of a list after another: an unknown city is an error, a city already named is another, any other city
      is accepted, with the code of the request where the official list has none. */
  lemma ValidatesInOrder(key: CityKey, catalog: Catalog, inputs: seq<Input>)
    ensures inputs == [] ==> Validated(key, catalog, inputs) == Validation({}, [], [])
    ensures inputs != [] ==>
              var init, last := inputs[..|inputs| - 1], inputs[|inputs| - 1];
              var before, after := Validated(key, catalog, init), Validated(key, catalog, inputs);
              && (Unknown(key, catalog, last) ==>
                    after.cities == before.cities && after.errors == before.errors + [NotFound])
              && (forall o | Means(key, catalog, last, o) ::
                    if NamedBefore(key, catalog, init, o)
                    then after.cities == before.cities && after.errors == before.errors + [AlreadyLinked]
                    else after.cities == before.cities + [Filled(o, last)] && after.errors == before.errors)
              && (!Unknown(key, catalog, last) ==> exists o :: Means(key, catalog, last, o))
  {
    if inputs != [] {
      var init, last := inputs[..|inputs| - 1], inputs[|inputs| - 1];
      SeenAreNamed(key, catalog, init);
      ValidateOneAnswers(key, catalog, Validated(key, catalog, init), last);
      forall o ensures NamedBefore(key, catalog, init, o) <==> KeyOf(key, o) in Validated(key, catalog, init).seen {
        NamedBeforeIsSeen(key, catalog, init, o);
      }
      hide NamedBefore, Means, Unknown, ValidateOne, KeyOf, SeenFor;
    }
  }

  /** Every accepted city is one some request names, and every request that names a city has it accepted, for itself or
      for an earlier one. */
  lemma {:induction false} AcceptsWhatIsNamed(key: CityKey, catalog: Catalog, inputs: seq<Input>)
    ensures forall c | c in Validated(key, catalog, inputs).cities :: AcceptedFor(key, catalog, inputs, c)
    ensures AllCovered(key, catalog, inputs)
  {
    if inputs != [] {
      var n := |inputs| - 1;
      var init, last := inputs[..n], inputs[n];
      AcceptsWhatIsNamed(key, catalog, init);
      ValidatesInOrder(key, catalog, inputs);
      hide Means, Unknown, Validated, SameCity, NamedBefore;
      forall c | AcceptedFor(key, catalog, init, c) ensures AcceptedFor(key, catalog, inputs, c) {
        var m, o :| 0 <= m < |init| && Means(key, catalog, init[m], o) && c == Filled(o, init[m]);
        assert inputs[m] == init[m];
      }
      forall c | c in Validated(key, catalog, inputs).cities ensures AcceptedFor(key, catalog, inputs, c) {
        if c !in Validated(key, catalog, init).cities {
          LastAccepted(key, catalog, inputs, c);
        }
      }
      forall m, o | 0 <= m < |inputs| && Means(key, catalog, inputs[m], o) ensures Covers(key, catalog, inputs, o) {
        if m < n {
          assert init[m] == inputs[m];
          StaysCovered(key, catalog, inputs, o, o);
        } else {
          LastCovered(key, catalog, inputs, o);
        }
      }
    }
  }

  lemma SameCityJoins(key: CityKey, a: Official, b: Official, c: Official)
    ensures SameCity(key, a, a)
    ensures SameCity(key, a, b) && SameCity(key, b, c) ==> SameCity(key, a, c)
  {
    StableKeysTellApart(key, a, b);
    StableKeysTellApart(key, b, c);
    StableKeysTellApart(key, a, c);
    StableKeysTellApart(key, a, a);
    hide *;
  }

  /** What covered `q` before covers `o`, which is one with it. */
  lemma StaysCovered(key: CityKey, catalog: Catalog, inputs: seq<Input>, o: Official, q: Official)
    requires inputs != [] && Covers(key, catalog, inputs[..|inputs| - 1], q) && (o == q || SameCity(key, o, q))
    ensures Covers(key, catalog, inputs, o)
  {
    var init := inputs[..|inputs| - 1];
    ValidatesInOrder(key, catalog, inputs);
    hide Means, Unknown, Validated, SameCity, NamedBefore;
    var m, r :| 0 <= m < |init| && Means(key, catalog, init[m], r) && SameCity(key, q, r)
                && Filled(r, init[m]) in Validated(key, catalog, init).cities;
    SameCityJoins(key, o, q, r);
    assert inputs[m] == init[m];
  }

  lemma LastCovered(key: CityKey, catalog: Catalog, inputs: seq<Input>, o: Official)
    requires inputs != [] && Means(key, catalog, inputs[|inputs| - 1], o)
    requires AllCovered(key, catalog, inputs[..|inputs| - 1])
    ensures Covers(key, catalog, inputs, o)
  {
    var n := |inputs| - 1;
    ValidatesInOrder(key, catalog, inputs);
    hide Means, Unknown, Validated, SameCity, Covers, Filled;
    if NamedBefore(key, catalog, inputs[..n], o) {
      var m, q :| 0 <= m < n && Means(key, catalog, inputs[..n][m], q) && SameCity(key, o, q);
      StaysCovered(key, catalog, inputs, o, q);
    } else {
      SameCityJoins(key, o, o, o);
      AcceptedCovers(key, catalog, inputs, n, o);
    }
  }

  lemma AcceptedCovers(key: CityKey, catalog: Catalog, inputs: seq<Input>, m: nat, o: Official)
    requires m < |inputs| && Means(key, catalog, inputs[m], o) && SameCity(key, o, o)
    requires Filled(o, inputs[m]) in Validated(key, catalog, inputs).cities
    ensures Covers(key, catalog, inputs, o)
  {
    hide Means, SameCity, Validated, Filled;
  }

  /** A list passes exactly when every request names a city and no two name one city. */
  lemma {:induction false} PassesExactly(key: CityKey, catalog: Catalog, inputs: seq<Input>)
    ensures Validated(key, catalog, inputs).errors == [] <==> AllFresh(key, catalog, inputs)
    ensures Validated(key, catalog, inputs).errors == [] ==> |Validated(key, catalog, inputs).cities| == |inputs|
  {
    if inputs == [] {
      ValidatesInOrder(key, catalog, inputs);
    } else {
      var n := |inputs| - 1;
      PassesExactly(key, catalog, inputs[..n]);
      LastPasses(key, catalog, inputs);
      AllFreshLast(key, catalog, inputs);
      hide *;
    }
  }

  ghost predicate AllFresh(key: CityKey, catalog: Catalog, inputs: seq<Input>) {
    forall m | 0 <= m < |inputs| :: Fresh(key, catalog, inputs, m)
  }

  lemma AllFreshLast(key: CityKey, catalog: Catalog, inputs: seq<Input>)
    requires inputs != []
    ensures var n := |inputs| - 1;
            AllFresh(key, catalog, inputs) <==> AllFresh(key, catalog, inputs[..n]) && Fresh(key, catalog, inputs, n)
  {
    hide Fresh;
    var n := |inputs| - 1;
    forall m | 0 <= m < n ensures Fresh(key, catalog, inputs[..n], m) <==> Fresh(key, catalog, inputs, m) {
      PrefixFresh(key, catalog, inputs, n, m);
    }
  }

  lemma PrefixFresh(key: CityKey, catalog: Catalog, inputs: seq<Input>, n: nat, m: nat)
    requires m < n <= |inputs|
    ensures Fresh(key, catalog, inputs[..n], m) <==> Fresh(key, catalog, inputs, m)
  {
    assert inputs[..n][..m] == inputs[..m];
    hide NamedBefore, Means;
  }

  lemma LastPasses(key: CityKey, catalog: Catalog, inputs: seq<Input>)
    requires inputs != []
    ensures var n := |inputs| - 1;
            var before, after := Validated(key, catalog, inputs[..n]), Validated(key, catalog, inputs);
            if Fresh(key, catalog, inputs, n)
              then after.errors == before.errors && |after.cities| == |before.cities| + 1
            else |after.errors| == |before.errors| + 1
  {
    var n := |inputs| - 1;
    ValidatesInOrder(key, catalog, inputs);
    FindsWhatIsNamed(key, catalog, inputs[n]);
    hide Validated, NamedBefore, Means, Unknown, FindOfficial, Filled;
  }

  ghost predicate Fresh(key: CityKey, catalog: Catalog, inputs: seq<Input>, m: nat)
    requires m < |inputs|
  {
    exists o :: Means(key, catalog, inputs[m], o) && !NamedBefore(key, catalog, inputs[..m], o)
  }

  ghost predicate AllCovered(key: CityKey, catalog: Catalog, inputs: seq<Input>) {
    forall m, o | 0 <= m < |inputs| && Means(key, catalog, inputs[m], o) :: Covers(key, catalog, inputs, o)
  }

  ghost predicate AcceptedFor(key: CityKey, catalog: Catalog, inputs: seq<Input>, c: Official) {
    exists m, o :: 0 <= m < |inputs| && Means(key, catalog, inputs[m], o) && c == Filled(o, inputs[m])
  }

  /** A city that is one with `o` was accepted. */
  ghost predicate Covers(key: CityKey, catalog: Catalog, inputs: seq<Input>, o: Official) {
    exists m, q :: 0 <= m < |inputs| && Means(key, catalog, inputs[m], q) && SameCity(key, o, q)
                   && Filled(q, inputs[m]) in Validated(key, catalog, inputs).cities
  }

  lemma LastAccepted(key: CityKey, catalog: Catalog, inputs: seq<Input>, c: Official)
    requires inputs != [] && c in Validated(key, catalog, inputs).cities
    requires c !in Validated(key, catalog, inputs[..|inputs| - 1]).cities
    ensures AcceptedFor(key, catalog, inputs, c)
  {
    var n := |inputs| - 1;
    ValidatesInOrder(key, catalog, inputs);
    hide Means, Unknown, Validated, SameCity, NamedBefore;
    var o :| Means(key, catalog, inputs[n], o);
    assert c == Filled(o, inputs[n]);
  }

  // ----- Who holds a city -----

  /** The row stands for the city: its name in that state, or its code as the table has it. */
  predicate StandsFor(key: CityKey, r: Row, c: Official) {
    r.state == c.state && (key(r.city) == key(c.city) || (HasCode(c.ibge) && r.ibge == Some(Trim(c.ibge.value))))
  }

  ghost predicate HeldByOthers(key: CityKey, rows: seq<Row>, sellerId: string, c: Official) {
    exists r | r in rows :: r.sellerId != sellerId && StandsFor(key, r, c)
  }

  ghost predicate Held(key: CityKey, rows: seq<Row>, c: Official) {
    exists r | r in rows :: StandsFor(key, r, c)
  }

  lemma LinkedIsHeld(key: CityKey, rows: seq<Row>, sellerId: string, c: Official)
    ensures FindLinked(key, rows, sellerId, c).Some? <==> HeldByOthers(key, rows, sellerId, c)
    ensures FindLinked(key, rows, sellerId, c).Some? ==>
              FindLinked(key, rows, sellerId, c).value in rows
                && FindLinked(key, rows, sellerId, c).value.sellerId != sellerId
              && StandsFor(key, FindLinked(key, rows, sellerId, c).value, c)
  {
    AmongStands(key, rows, InStateOfOthers(sellerId, c.state), c);
  }

  /** Among the rows that `p` keeps, all of the state. */
  lemma AmongStands(key: CityKey, rows: seq<Row>, p: Row -> bool, c: Official)
    requires forall r | p(r) :: r.state == c.state
    ensures var found := FindAmong(key, Grouping.Filter(rows, p), c);
            && (found.Some? <==> exists r | r in rows :: p(r) && StandsFor(key, r, c))
            && (found.Some? ==> found.value in rows && p(found.value) && StandsFor(key, found.value, c))
  {
    hide First, Trim, NormalizedKey, Grouping.Filter;
    forall r: Row ensures RowNamed(key, c)(r) <==> r.state == c.state && key(r.city) == key(c.city) {
      NormalizedKeysTellApart(key, r.state, r.city, c.state, c.city);
    }
    hide RowNamed;
    var kept := Grouping.Filter(rows, p);
    forall r | r in rows && p(r) && StandsFor(key, r, c) ensures FindAmong(key, kept, c).Some? {
      assert r in kept;
    }
  }

  /** The first row that `p` keeps and `q` accepts. */
  lemma {:induction false} FirstKept(rows: seq<Row>, p: Row -> bool, q: Row -> bool) returns (i: nat)
    ensures First(Grouping.Filter(rows, p), q).Some? ==>
              && i < |rows| && p(rows[i]) && q(rows[i]) && First(Grouping.Filter(rows, p), q) == Some(rows[i])
              && forall j | 0 <= j < i :: !(p(rows[j]) && q(rows[j]))
  {
    hide First, Grouping.Filter;
    i := 0;
    FirstOfOne(rows, q);
    if rows == [] {
      NothingKept(p);
    } else {
      var n := |rows| - 1;
      i := FirstKept(rows[..n], p, q);
      var kept := Grouping.Filter(rows[..n], p);
      FirstOfTwo(kept, if p(rows[n]) then [rows[n]] else [], q);
      Grouping.FilterStep(rows, n, p);
      assert rows[..n + 1] == rows;
      if First(kept, q).None? {
        forall j | 0 <= j < n ensures !(p(rows[j]) && q(rows[j])) {
          assert rows[j] in rows[..n];
          assert p(rows[j]) ==> rows[j] in kept;
        }
        i := n;
      }
    }
  }

  lemma FirstOfOne(rows: seq<Row>, q: Row -> bool)
    ensures First([], q) == None
    ensures forall r | r in rows :: First([r], q) == if q(r) then Some(r) else None
  {
  }

  lemma NothingKept(p: Row -> bool)
    ensures Grouping.Filter([], p) == []
  {
  }

  lemma {:induction false} FirstOfTwo(a: seq<Row>, b: seq<Row>, q: Row -> bool)
    ensures First(a + b, q) == if First(a, q).Some? then First(a, q) else First(b, q)
  {
    if a == [] {
      assert a + b == b;
    } else {
      assert (a + b)[1..] == a[1..] + b;
      FirstOfTwo(a[1..], b, q);
    }
  }

  predicate OwnByCode(r: Row, sellerId: string, c: Official) {
    r.sellerId == sellerId && r.state == c.state && HasCode(c.ibge) && r.ibge == Some(Trim(c.ibge.value))
  }

  predicate OwnByName(key: CityKey, r: Row, sellerId: string, c: Official) {
    r.sellerId == sellerId && r.state == c.state && key(r.city) == key(c.city)
  }

  /** The `i`-th row is the first of the seller's own with the city's code or, when none has it, with its name. */
  ghost predicate FirstOwn(key: CityKey, rows: seq<Row>, sellerId: string, c: Official, i: nat) {
    && i < |rows|
    && if exists r | r in rows :: OwnByCode(r, sellerId, c)
       then OwnByCode(rows[i], sellerId, c) && forall j | 0 <= j < i :: !OwnByCode(rows[j], sellerId, c)
       else OwnByName(key, rows[i], sellerId, c) && forall j | 0 <= j < i :: !OwnByName(key, rows[j], sellerId, c)
  }

  ghost predicate IsFirstOwn(key: CityKey, rows: seq<Row>, sellerId: string, c: Official, r: Row) {
    exists i: nat :: FirstOwn(key, rows, sellerId, c, i) && r == rows[i]
  }

  /** The search among the seller's own rows finds that row and no other. */
  lemma ExistingIsFirstOwn(key: CityKey, rows: seq<Row>, sellerId: string, c: Official)
    ensures forall r :: FindExisting(key, rows, sellerId, c) == Some(r) <==> IsFirstOwn(key, rows, sellerId, c, r)
    ensures FindExisting(key, rows, sellerId, c).Some?
            <==> exists r | r in rows :: r.sellerId == sellerId && StandsFor(key, r, c)
  {
    AmongStands(key, rows, InStateOf(sellerId, c.state), c);
    var i := FoundIndex(key, rows, sellerId, c);
    hide FindExisting, FirstOwn, StandsFor;
    if FindExisting(key, rows, sellerId, c).Some? {
      OnlyOneFirst(key, rows, sellerId, c, i);
    } else {
      forall j: nat ensures !FirstOwn(key, rows, sellerId, c, j) {
        FirstStands(key, rows, sellerId, c, j);
      }
    }
    assert FindExisting(key, rows, sellerId, c)
      == FindAmong(key, Grouping.Filter(rows, InStateOf(sellerId, c.state)), c) by {
      ExistingAmong(key, rows, sellerId, c);
    }
  }

  lemma ExistingAmong(key: CityKey, rows: seq<Row>, sellerId: string, c: Official)
    ensures FindExisting(key, rows, sellerId, c)
            == FindAmong(key, Grouping.Filter(rows, InStateOf(sellerId, c.state)), c)
  {
    hide FindAmong;
  }

  lemma FirstStands(key: CityKey, rows: seq<Row>, sellerId: string, c: Official, i: nat)
    ensures FirstOwn(key, rows, sellerId, c, i) ==>
              rows[i] in rows && rows[i].sellerId == sellerId && StandsFor(key, rows[i], c)
  {
    hide Trim;
  }

  lemma OnlyOneFirst(key: CityKey, rows: seq<Row>, sellerId: string, c: Official, i: nat)
    requires FirstOwn(key, rows, sellerId, c, i)
    ensures forall j: nat | FirstOwn(key, rows, sellerId, c, j) :: j == i
  {
    hide OwnByCode, OwnByName;
  }

  lemma OwnRows(key: CityKey, sellerId: string, c: Official)
    ensures var p := InStateOf(sellerId, c.state);
            && (forall r ::
                  OwnByCode(r, sellerId, c) <==> Code(c.ibge).Some? && p(r) && RowWithCode(Code(c.ibge).value)(r))
            && (forall r :: OwnByName(key, r, sellerId, c) <==> p(r) && RowNamed(key, c)(r))
  {
    hide Trim, NormalizedKey;
    forall r: Row ensures OwnByName(key, r, sellerId, c) <==> InStateOf(sellerId, c.state)(r) && RowNamed(key, c)(r) {
      NormalizedKeysTellApart(key, r.state, r.city, c.state, c.city);
    }
  }

  lemma FoundIndex(key: CityKey, rows: seq<Row>, sellerId: string, c: Official) returns (i: nat)
    ensures FindExisting(key, rows, sellerId, c).Some? ==>
              FirstOwn(key, rows, sellerId, c, i) && FindExisting(key, rows, sellerId, c) == Some(rows[i])
  {
    hide First, Code, OwnByCode, OwnByName, RowNamed, RowWithCode, InStateOf, Grouping.Filter;
    var p := InStateOf(sellerId, c.state);
    var code := Code(c.ibge);
    i := 0;
    if code.Some? {
      i := FirstKept(rows, p, RowWithCode(code.value));
    }
    var k := FirstKept(rows, p, RowNamed(key, c));
    OwnRows(key, sellerId, c);
    var kept := Grouping.Filter(rows, p);
    if code.Some? && First(kept, RowWithCode(code.value)).Some? {
      assert rows[i] in rows;
    } else {
      i := k;
      NoneByCode(rows, sellerId, c);
    }
  }

  lemma NoneByCode(rows: seq<Row>, sellerId: string, c: Official)
    ensures var code, kept := Code(c.ibge), Grouping.Filter(rows, InStateOf(sellerId, c.state));
            code.None? || First(kept, RowWithCode(code.value)).None? ==>
              forall r | r in rows :: !OwnByCode(r, sellerId, c)
  {
    hide First, Grouping.Filter, Trim;
    forall r | r in rows && InStateOf(sellerId, c.state)(r)
      ensures r in Grouping.Filter(rows, InStateOf(sellerId, c.state)) {
    }
  }

  // ----- The routes -----

  predicate Refuses(s: Store, status: nat, answer: (Store, Reply)) {
    answer.0 == s && answer.1.Refused? && answer.1.status == status
  }

  lemma OneRequest(key: CityKey, catalog: Catalog, input: Input)
    ensures Unknown(key, catalog, input) ==> Validated(key, catalog, [input]).errors != []
    ensures forall o | Means(key, catalog, input, o) :: Validated(key, catalog, [input]).errors == []
                                                       && Validated(key, catalog, [input]).cities == [Filled(o, input)]
    ensures !Unknown(key, catalog, input) ==> exists o :: Means(key, catalog, input, o)
  {
    assert [input][..0] == [];
    ValidatesInOrder(key, catalog, [input]);
    ValidatesInOrder(key, catalog, []);
    hide Validated, Means, Unknown, Filled, SameCity;
  }

  /** Adding one city: refused by the access rules, with 400 when the official list has neither its code nor its name,
      with 409 when a row of any seller stands for it; otherwise that city is appended for the seller. */
  lemma AddAnswers(key: CityKey, s: Store, sellerId: string, input: Input, catalog: Catalog,
                   access: string -> Option<nat>)
    ensures var answer := Step(key, s, Request(Add(sellerId, input), catalog, access));
            match access(sellerId)
            case Some(status) => Refuses(s, status, answer)
            case None =>
              && (Unknown(key, catalog, input) ==> Refuses(s, 400, answer))
              && (!Unknown(key, catalog, input) ==> exists o :: Means(key, catalog, input, o))
              && forall o | Means(key, catalog, input, o) :: AddedOrHeld(key, s, sellerId, Filled(o, input), answer)
  {
    OneRequest(key, catalog, input);
    hide Validated, Means, Unknown, Filled, FindExisting, FindLinked, AddedOrHeld;
    forall o | access(sellerId).None? && Means(key, catalog, input, o)
      ensures AddedOrHeld(key, s, sellerId, Filled(o, input),
                          Step(key, s, Request(Add(sellerId, input), catalog, access)))
    {
      HeldExactly(key, s.rows, sellerId, Filled(o, input));
      AddOne(key, s, sellerId, Filled(o, input), Validated(key, catalog, [input]));
    }
  }

  lemma HeldExactly(key: CityKey, rows: seq<Row>, sellerId: string, c: Official)
    ensures Held(key, rows, c)
            <==> FindExisting(key, rows, sellerId, c).Some? || FindLinked(key, rows, sellerId, c).Some?
  {
    ExistingIsFirstOwn(key, rows, sellerId, c);
    LinkedIsHeld(key, rows, sellerId, c);
    hide FindExisting, FindLinked, StandsFor, IsFirstOwn;
  }

  ghost predicate AddedOrHeld(key: CityKey, s: Store, sellerId: string, c: Official, answer: (Store, Reply)) {
    if Held(key, s.rows, c) then Refuses(s, 409, answer)
    else answer == (Store(s.rows + [Row(s.nextId, sellerId, c.city, c.state, c.ibge)], s.nextId + 1), Done(201, 1, []))
  }

  lemma AddOne(key: CityKey, s: Store, sellerId: string, c: Official, v: Validation)
    requires v.errors == [] && v.cities == [c]
    requires Held(key, s.rows, c)
             <==> FindExisting(key, s.rows, sellerId, c).Some? || FindLinked(key, s.rows, sellerId, c).Some?
    ensures AddedOrHeld(key, s, sellerId, c, AddStep(key, s, sellerId, v))
  {
    hide FindExisting, FindLinked, Held;
  }

  /** What an edit of `current` answers for the city it means. */
  ghost predicate EditedOrHeld(key: CityKey, s: Store, current: Row, c: Official, answer: (Store, Reply)) {
    if HeldByOthers(key, s.rows, current.sellerId, c)
       || exists r :: IsFirstOwn(key, s.rows, current.sellerId, c, r) && r.id != current.id
    then Refuses(s, 409, answer)
    else if exists r | r in s.rows ::
              r.id != current.id && r.sellerId == current.sellerId && r.state == c.state && r.city == c.city
    then Refuses(s, 500, answer)
    else
      && answer.1 == Done(200, 0, []) && answer.0.nextId == s.nextId && |answer.0.rows| == |s.rows|
      && forall i | 0 <= i < |s.rows| ::
           answer.0.rows[i] == if s.rows[i].id == current.id
             then Row(current.id, current.sellerId, c.city, c.state, c.ibge) else s.rows[i]
  }

  lemma EditOne(key: CityKey, s: Store, current: Row, c: Official, v: Validation)
    requires v.errors == [] && v.cities == [c]
    ensures EditedOrHeld(key, s, current, c, EditStep(key, s, current, v))
  {
    ExistingIsFirstOwn(key, s.rows, current.sellerId, c);
    LinkedIsHeld(key, s.rows, current.sellerId, c);
    OtherTaken(s.rows, current.id, current.sellerId, c);
    hide FindExisting, FindLinked, HeldByOthers, Taken, Grouping.Filter, StandsFor, IsFirstOwn;
  }

  lemma OtherTaken(rows: seq<Row>, id: nat, sellerId: string, c: Official)
    ensures Taken(Grouping.Filter(rows, NotId(id)), sellerId, c) <==>
              exists r | r in rows :: r.id != id && r.sellerId == sellerId && r.state == c.state && r.city == c.city
  {
    hide Grouping.Filter;
    var kept := Grouping.Filter(rows, NotId(id));
    forall r: Row ensures NotId(id)(r) <==> r.id != id {
    }
    forall r | r in rows && r.id != id ensures r in kept {
      assert NotId(id)(r);
    }
    forall r: Row
      ensures SameTriple(r, sellerId, c) <==> r.sellerId == sellerId && r.state == c.state && r.city == c.city {
    }
  }

  /** Editing a row: 404 without it, then the access rules, 400 for a city not in the official list, 409 when another
      seller holds the city or the first of the owner's rows that does is another one, 500 from the index when yet
      another row of the owner bears its very name; otherwise that row, and no other, becomes the city. */
  lemma EditAnswers(key: CityKey, s: Store, id: nat, input: Input, catalog: Catalog, access: string -> Option<nat>)
    ensures var answer := Step(key, s, Request(Edit(id, input), catalog, access));
            && ((forall r | r in s.rows :: r.id != id) ==> Refuses(s, 404, answer))
            && forall i | FirstWithId(s.rows, id, i) :: EditAnswered(key, s, s.rows[i], input, catalog, access, answer)
  {
    var k := FirstIsFirst(s.rows, HasId(id));
    forall r: Row ensures HasId(id)(r) <==> r.id == id {
    }
    hide Validated, EditStep, EditAnswered, First;
    if First(s.rows, HasId(id)).Some? {
      EditOfRow(key, s, s.rows[k], input, catalog, access);
    }
  }

  predicate FirstWithId(rows: seq<Row>, id: nat, i: int) {
    0 <= i < |rows| && rows[i].id == id && forall j | 0 <= j < i :: rows[j].id != id
  }

  ghost predicate EditAnswered(key: CityKey, s: Store, current: Row, input: Input, catalog: Catalog,
                               access: string -> Option<nat>, answer: (Store, Reply))
  {
    match access(current.sellerId)
    case Some(status) => Refuses(s, status, answer)
    case None =>
      && (Unknown(key, catalog, input) ==> Refuses(s, 400, answer))
      && forall o | Means(key, catalog, input, o) :: EditedOrHeld(key, s, current, Filled(o, input), answer)
  }

  lemma EditOfRow(key: CityKey, s: Store, current: Row, input: Input, catalog: Catalog, access: string -> Option<nat>)
    ensures EditAnswered(key, s, current, input, catalog, access,
                         match access(current.sellerId)
                         case Some(status) => (s, Refused(status, []))
                         case None => EditStep(key, s, current, Validated(key, catalog, [input])))
  {
    OneRequest(key, catalog, input);
    hide Validated, Means, Unknown, Filled, EditStep, EditedOrHeld;
    forall o | Means(key, catalog, input, o)
      ensures EditedOrHeld(key, s, current, Filled(o, input),
                           EditStep(key, s, current, Validated(key, catalog, [input])))
    {
      EditOne(key, s, current, Filled(o, input), Validated(key, catalog, [input]));
    }
    EditRefused(key, s, current, Validated(key, catalog, [input]));
  }

  lemma EditRefused(key: CityKey, s: Store, current: Row, v: Validation)
    ensures v.errors != [] ==> Refuses(s, 400, EditStep(key, s, current, v))
  {
  }

  /** Deleting a row: 404 without it, then the access rules; otherwise that row goes and every other stays. */
  lemma DeleteAnswers(key: CityKey, s: Store, id: nat, catalog: Catalog, access: string -> Option<nat>)
    ensures var answer := Step(key, s, Request(Delete(id), catalog, access));
            && ((forall r | r in s.rows :: r.id != id) ==> Refuses(s, 404, answer))
            && forall i | FirstWithId(s.rows, id, i) ::
                 match access(s.rows[i].sellerId)
                 case Some(status) => Refuses(s, status, answer)
                 case None =>
                   && answer.1 == Done(204, 0, []) && answer.0.nextId == s.nextId
                   && (forall r :: r in answer.0.rows <==> r in s.rows && r.id != id)
  {
    var k := FirstIsFirst(s.rows, HasId(id));
    forall r: Row ensures HasId(id)(r) <==> r.id == id {
    }
    forall r: Row ensures NotId(id)(r) <==> r.id != id {
    }
    hide First, Grouping.Filter;
  }

  // ----- Whole lists -----

  /** One row after another: a city whose very name the seller has in that state is passed over, any other is appended
      under the next key. */
  lemma InsertsInOrder(s: Store, sellerId: string, cities: seq<Official>)
    ensures cities == [] ==> InsertAll(s, sellerId, cities) == s
    ensures cities != [] ==>
              var t, c := InsertAll(s, sellerId, cities[..|cities| - 1]), cities[|cities| - 1];
              InsertAll(s, sellerId, cities)
              == if exists r | r in t.rows :: r.sellerId == sellerId && r.state == c.state && r.city == c.city then t
                 else Store(t.rows + [Row(t.nextId, sellerId, c.city, c.state, c.ibge)], t.nextId + 1)
  {
    forall r: Row, c
      ensures SameTriple(r, sellerId, c) <==> r.sellerId == sellerId && r.state == c.state && r.city == c.city {
    }
  }

  /** Replacing a seller's cities: the access rules, 400 for the errors of the list, 409 when another seller holds one
      of its cities; otherwise the seller's rows go and the cities are inserted. */
  lemma ReplaceAnswers(key: CityKey, s: Store, sellerId: string, inputs: seq<Input>, catalog: Catalog,
                       access: string -> Option<nat>)
    ensures var answer, v := Step(key, s, Request(Replace(sellerId, inputs), catalog, access)),
            Validated(key, catalog, inputs);
            match access(sellerId)
            case Some(status) => Refuses(s, status, answer)
            case None => ReplacedOrHeld(key, s, sellerId, v, answer)
  {
    ReplaceOne(key, s, sellerId, Validated(key, catalog, inputs));
    hide Validated, ReplacedOrHeld, ReplaceStep;
  }

  ghost predicate ReplacedOrHeld(key: CityKey, s: Store, sellerId: string, v: Validation, answer: (Store, Reply)) {
    if v.errors != [] then Refuses(s, 400, answer) && answer.1.errors == v.errors
    else if exists c | c in v.cities :: HeldByOthers(key, s.rows, sellerId, c) then Refuses(s, 409, answer)
    else
      && answer.1 == Done(200, |v.cities|, [])
      && exists cleared :: OthersOnly(s, sellerId, cleared) && answer.0 == InsertAll(cleared, sellerId, v.cities)
  }

  lemma ReplaceOne(key: CityKey, s: Store, sellerId: string, v: Validation)
    ensures ReplacedOrHeld(key, s, sellerId, v, ReplaceStep(key, s, sellerId, v))
  {
    hide FindLinked, HeldByOthers, InsertAll, Grouping.Filter, FindConflict, OthersOnly;
    ConflictIsHeld(key, s.rows, sellerId, v.cities);
    ClearedIsOthers(s, sellerId);
  }

  lemma ConflictIsHeld(key: CityKey, rows: seq<Row>, sellerId: string, cities: seq<Official>)
    ensures FindConflict(key, rows, sellerId, cities).Some?
            <==> exists c | c in cities :: HeldByOthers(key, rows, sellerId, c)
  {
    forall c | c in cities ensures FindLinked(key, rows, sellerId, c).Some? <==> HeldByOthers(key, rows, sellerId, c) {
      LinkedIsHeld(key, rows, sellerId, c);
    }
    hide FindLinked, HeldByOthers;
  }

  lemma ClearedIsOthers(s: Store, sellerId: string)
    ensures OthersOnly(s, sellerId, s.(rows := Grouping.Filter(s.rows, NotOf(sellerId))))
  {
    forall r: Row ensures NotOf(sellerId)(r) <==> r.sellerId != sellerId {
    }
    hide Grouping.Filter;
  }

  ghost predicate OthersOnly(s: Store, sellerId: string, t: Store) {
    t.nextId == s.nextId && forall r :: r in t.rows <==> r in s.rows && r.sellerId != sellerId
  }

  /** The seller has the city: a row of its own that is one with it, or one planned before. */
  ghost predicate OwnedOrPlanned(key: CityKey, rows: seq<Row>, sellerId: string, create: seq<Official>, o: Official) {
    || (exists r | r in rows :: r.sellerId == sellerId && SameCity(key, o, Official(r.city, r.state, r.ibge)))
    || (exists c | c in create :: SameCity(key, o, c))
  }

  /** The plan of a bulk add (`bulk`) and of a confirmed upload, city after city: one the seller has is passed over,
      with a message in bulk; one another seller holds is reported with that seller in bulk, and otherwise ends the
      plan as its conflict; any other is created. */
  lemma PlansInOrder(key: CityKey, rows: seq<Row>, sellerId: string, bulk: bool, errors: seq<Error>,
                     cities: seq<Official>)
    ensures var p := Planned(key, rows, sellerId, bulk, errors, cities);
            && (cities == [] ==> p.create == [] && p.errors == errors && p.conflict == None)
            && (cities != [] ==> PlannedNext(key, rows, sellerId, bulk,
                                             Planned(key, rows, sellerId, bulk, errors, cities[..|cities| - 1]),
                                               cities[|cities| - 1], p))
  {
    hide StableKey, Planned, FindLinked, OwnedOrPlanned;
    PlannedUnfolds(key, rows, sellerId, bulk, errors, cities);
    if cities != [] {
      var q, o := Planned(key, rows, sellerId, bulk, errors, cities[..|cities| - 1]), cities[|cities| - 1];
      OwnedExactly(key, rows, sellerId, bulk, errors, cities[..|cities| - 1], o);
      hide PlanOne, PlannedNext;
      PlanOneAnswers(key, rows, sellerId, bulk, q, o);
    }
  }

  lemma PlanOneAnswers(key: CityKey, rows: seq<Row>, sellerId: string, bulk: bool, q: Plan, o: Official)
    requires StableKey(key, o.state, o.city, o.ibge) in q.keys <==> OwnedOrPlanned(key, rows, sellerId, q.create, o)
    ensures PlannedNext(key, rows, sellerId, bulk, q, o, PlanOne(key, rows, sellerId, bulk, q, o))
  {
    LinkedIsHeld(key, rows, sellerId, o);
    hide FindLinked, OwnedOrPlanned, HeldByOthers, StandsFor, StableKey;
    var linked, p := FindLinked(key, rows, sellerId, o), PlanOne(key, rows, sellerId, bulk, q, o);
    if q.conflict.None? && !OwnedOrPlanned(key, rows, sellerId, q.create, o) && linked.Some? {
      var r := linked.value;
      assert r in rows && r.sellerId != sellerId && StandsFor(key, r, o);
    }
  }

  lemma PlannedUnfolds(key: CityKey, rows: seq<Row>, sellerId: string, bulk: bool, errors: seq<Error>,
                       cities: seq<Official>)
    ensures Planned(key, rows, sellerId, bulk, errors, cities)
            == if cities == [] then Plan(OwnKeys(key, rows, sellerId), [], errors, None)
               else PlanOne(key, rows, sellerId, bulk,
                            Planned(key, rows, sellerId, bulk, errors, cities[..|cities| - 1]),
                            cities[|cities| - 1])
  {
    hide PlanOne, OwnKeys;
  }

  ghost predicate KeyKnown(key: CityKey, rows: seq<Row>, sellerId: string, create: seq<Official>, k: string) {
    || (exists r | r in rows :: r.sellerId == sellerId && KeyOf(key, Official(r.city, r.state, r.ibge)) == k)
    || (exists c | c in create :: KeyOf(key, c) == k)
  }

  lemma {:induction false} PlannedKeys(key: CityKey, rows: seq<Row>, sellerId: string, bulk: bool, errors: seq<Error>,
                                       cities: seq<Official>)
    ensures var p := Planned(key, rows, sellerId, bulk, errors, cities);
            forall k :: k in p.keys <==> KeyKnown(key, rows, sellerId, p.create, k)
  {
    hide StableKey, FindLinked;
    if cities != [] {
      var n := |cities| - 1;
      PlannedKeys(key, rows, sellerId, bulk, errors, cities[..n]);
      var q := Planned(key, rows, sellerId, bulk, errors, cities[..n]);
      PlannedUnfolds(key, rows, sellerId, bulk, errors, cities);
      PlanOneKeys(key, rows, sellerId, bulk, q, cities[n]);
      forall k ensures KeyKnown(key, rows, sellerId, q.create + [cities[n]], k)
                       <==> KeyKnown(key, rows, sellerId, q.create, k) || k == KeyOf(key, cities[n]) {
        MoreKnown(key, rows, sellerId, q.create, cities[n], k);
      }
      hide *;
    }
  }

  lemma PlanOneKeys(key: CityKey, rows: seq<Row>, sellerId: string, bulk: bool, q: Plan, o: Official)
    ensures var p := PlanOne(key, rows, sellerId, bulk, q, o);
            || (p.keys == q.keys && p.create == q.create)
            || (p.keys == q.keys + {KeyOf(key, o)} && p.create == q.create + [o])
  {
    hide FindLinked, StableKey;
  }

  lemma MoreKnown(key: CityKey, rows: seq<Row>, sellerId: string, create: seq<Official>, o: Official, k: string)
    ensures KeyKnown(key, rows, sellerId, create + [o], k)
            <==> KeyKnown(key, rows, sellerId, create, k) || k == KeyOf(key, o)
  {
    hide KeyOf;
    assert o in create + [o];
    assert forall c :: c in create + [o] <==> c in create || c == o;
  }

  lemma OwnedExactly(key: CityKey, rows: seq<Row>, sellerId: string, bulk: bool, errors: seq<Error>,
                     cities: seq<Official>,
                     o: Official)
    ensures var p := Planned(key, rows, sellerId, bulk, errors, cities);
            StableKey(key, o.state, o.city, o.ibge) in p.keys <==> OwnedOrPlanned(key, rows, sellerId, p.create, o)
  {
    PlannedKeys(key, rows, sellerId, bulk, errors, cities);
    forall c ensures SameCity(key, o, c) <==> KeyOf(key, o) == KeyOf(key, c) {
      StableKeysTellApart(key, o, c);
    }
    hide SameCity, Planned, StableKey;
  }

  ghost predicate PlannedNext(key: CityKey, rows: seq<Row>, sellerId: string, bulk: bool, q: Plan, o: Official,
                              p: Plan) {
    if q.conflict.Some? then p == q
    else if OwnedOrPlanned(key, rows, sellerId, q.create, o) then
      p.create == q.create && p.conflict == None && p.errors == (if bulk then q.errors + [AlreadyLinked] else q.errors)
    else if HeldByOthers(key, rows, sellerId, o) then
      && p.create == q.create
      && exists r | r in rows && r.sellerId != sellerId && StandsFor(key, r, o) ::
           if bulk then p.errors == q.errors + [TakenBy(r.sellerId)] && p.conflict == None
           else p.errors == q.errors && p.conflict == Some(r)
    else p.create == q.create + [o] && p.errors == q.errors && p.conflict == None
  }

  /** Lines of a bulk text: those that pass the schema are the requests, in their order; each other is one error. */
  lemma LinesSplit(lines: seq<Option<Input>>)
    ensures lines == [] ==> Parsed(lines) == [] && BadLines(lines) == []
    ensures lines != [] ==>
              var init := lines[..|lines| - 1];
              match lines[|lines| - 1]
              case Some(input) => Parsed(lines) == Parsed(init) + [input] && BadLines(lines) == BadLines(init)
              case None => Parsed(lines) == Parsed(init) && BadLines(lines) == BadLines(init) + [BadLine]
  {
  }

  /** A bulk add: the access rules; otherwise 201 with the planned cities inserted, their number and every message. */
  lemma BulkAnswers(key: CityKey, s: Store, sellerId: string, lines: seq<Option<Input>>, catalog: Catalog,
                    access: string -> Option<nat>)
    ensures var answer, v := Step(key, s, Request(AddBulk(sellerId, lines), catalog, access)),
            Validated(key, catalog, Parsed(lines));
            match access(sellerId)
            case Some(status) => Refuses(s, status, answer)
            case None =>
              var p := Planned(key, s.rows, sellerId, true, BadLines(lines) + v.errors, v.cities);
              answer == (InsertAll(s, sellerId, p.create), Done(201, |p.create|, p.errors))
  {
    hide Validated, Planned, InsertAll, Parsed, BadLines;
  }

  /** Confirming an upload: the access rules, 400 for the errors of the list, 409 at a conflict; otherwise 201 with the
      planned cities inserted and their number. */
  lemma ConfirmAnswers(key: CityKey, s: Store, sellerId: string, inputs: seq<Input>, catalog: Catalog,
                       access: string -> Option<nat>)
    ensures var answer, v := Step(key, s, Request(ConfirmKml(sellerId, inputs), catalog, access)),
            Validated(key, catalog, inputs);
            match access(sellerId)
            case Some(status) => Refuses(s, status, answer)
            case None =>
              var p := Planned(key, s.rows, sellerId, false, [], v.cities);
              if v.errors != [] then Refuses(s, 400, answer) && answer.1.errors == v.errors
              else if p.conflict.Some? then Refuses(s, 409, answer)
              else answer == (InsertAll(s, sellerId, p.create), Done(201, |p.create|, []))
  {
    hide Validated, Planned, InsertAll;
  }
}
