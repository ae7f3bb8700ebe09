/** Clustering of duplicate clients by ERP code, document, and name/city/state. */
module DuplicateGroups {
  import opened Text
  import opened Grouping
  import opened Chains
  import opened DisjointSets

  datatype Candidate = Candidate(
    id: string,
    code: Option<string>,
    cnpj: Option<string>,
    cnpjNormalized: Option<string>,
    name: string,
    nameNormalized: Option<string>,
    city: string,
    cityNormalized: Option<string>,
    state: string,
    ownerSellerId: string,
    isArchived: bool,
    archiveReason: Option<string>,
    erpUpdatedAt: Option<int>,
    createdAt: int,
    activities: nat,
    opportunities: nat)

  /** `normalizeText` and `stripLegacyPrefix`: any two functions on strings. */
  datatype TextRules = TextRules(text: string -> string, strip: string -> string)

  const ARCHIVED_PREFIX := "[ARQUIVADO ERP DUP]"

  // ----- Identity keys -----

  predicate IsNeutralizedCode(code: string) {
    Contains(code, "__LEGACY_DUP__") || Contains(code, "__MERGED__")
  }

  function StrongCode(code: Option<string>): string {
    if code.Some? && code.value != "" && !IsNeutralizedCode(code.value) then StripZeros(Trim(code.value)) else ""
  }

  predicate OneDigitRepeated(s: string) {
    forall i | 0 <= i < |s| :: s[i] == s[0]
  }

  function ValidDocument(value: Option<string>): string {
    var digits := Digits(TextOf(value));
    if (|digits| == 11 || |digits| == 14) && !OneDigitRepeated(digits) then digits else ""
  }

  function CodeOf(c: Candidate): string {
    StrongCode(c.code)
  }

  function DocumentOf(c: Candidate): string {
    ValidDocument(OrText(c.cnpjNormalized, c.cnpj))
  }

  function NameKey(rules: TextRules, c: Candidate): string {
    rules.text(rules.strip(c.name)) + "|" + TextOr(c.cityNormalized, rules.text(c.city)) + "|" + c.state
  }

  predicate IsLegacy(rules: TextRules, c: Candidate) {
    rules.text(ARCHIVED_PREFIX) <= rules.text(c.name)
  }

  // ----- The reference notion of duplicate -----

  /** Two loaded clients share a bucket that the script links. */
  ghost predicate SharesBucket(rules: TextRules, clients: seq<Candidate>, x: Candidate, y: Candidate) {
    && x in clients && y in clients
    && (|| (CodeOf(x) == CodeOf(y) && CodeOf(x) != "")
        || (DocumentOf(x) == DocumentOf(y) && DocumentOf(x) != "")
        || (NameKey(rules, x) == NameKey(rules, y)
            && exists z :: z in clients && NameKey(rules, z) == NameKey(rules, x) && IsLegacy(rules, z)))
  }

  ghost function Bucketed(rules: TextRules, clients: seq<Candidate>): (Candidate, Candidate) -> bool {
    (x, y) => SharesBucket(rules, clients, x, y)
  }

  /** Joined by a chain of shared buckets. */
  ghost predicate Duplicates(rules: TextRules, clients: seq<Candidate>, x: Candidate, y: Candidate) {
    Linked(Bucketed(rules, clients), x, y)
  }

  function Ids(clients: seq<Candidate>): (ids: seq<string>)
    ensures |ids| == |clients| && forall i | 0 <= i < |ids| :: ids[i] == clients[i].id
  {
    seq(|clients|, i requires 0 <= i < |clients| => clients[i].id)
  }

  ghost predicate DistinctIds(clients: seq<Candidate>) {
    forall i, j | 0 <= i < j < |clients| :: clients[i].id != clients[j].id
  }

  // ----- Buckets -----

  function HasCode(): Candidate -> bool {
    (c: Candidate) => CodeOf(c) != ""
  }

  function HasDocument(): Candidate -> bool {
    (c: Candidate) => DocumentOf(c) != ""
  }

  function CodeKey(): Candidate -> string {
    (c: Candidate) => CodeOf(c)
  }

  function DocumentKey(): Candidate -> string {
    (c: Candidate) => DocumentOf(c)
  }

  function IdentityKey(rules: TextRules): Candidate -> string {
    (c: Candidate) => NameKey(rules, c)
  }

  function SomeLegacy(rules: TextRules): seq<Candidate> -> bool {
    (g: seq<Candidate>) => exists c | c in g :: IsLegacy(rules, c)
  }

  ghost function ByCode(clients: seq<Candidate>): Table<Candidate> {
    GroupBy(Filter(clients, HasCode()), CodeKey())
  }

  ghost function ByDocument(clients: seq<Candidate>): Table<Candidate> {
    GroupBy(Filter(clients, HasDocument()), DocumentKey())
  }

  ghost function ByNameCityState(rules: TextRules, clients: seq<Candidate>): Table<Candidate> {
    GroupBy(clients, IdentityKey(rules))
  }

  /** Every bucket the linking loop walks over. */
  ghost function Buckets(rules: TextRules, clients: seq<Candidate>): seq<seq<Candidate>> {
    GroupByRows(Filter(clients, HasCode()), CodeKey());
    GroupByRows(Filter(clients, HasDocument()), DocumentKey());
    GroupByRows(clients, IdentityKey(rules));
    Values(ByCode(clients)) + Values(ByDocument(clients))
    + Filter(Values(ByNameCityState(rules, clients)), SomeLegacy(rules))
  }

  /** Members of a bucket share it. */
  lemma BucketMembersShare(rules: TextRules, clients: seq<Candidate>, b: seq<Candidate>, x: Candidate, y: Candidate)
    requires b in Buckets(rules, clients) && x in b && y in b
    ensures SharesBucket(rules, clients, x, y)
  {
    GroupByRows(Filter(clients, HasCode()), CodeKey());
    GroupByRows(Filter(clients, HasDocument()), DocumentKey());
    GroupByRows(clients, IdentityKey(rules));
    if b in Values(ByCode(clients)) {
      RowMembers(Filter(clients, HasCode()), CodeKey(), b, x, y);
      assert HasCode()(x);
    } else if b in Values(ByDocument(clients)) {
      RowMembers(Filter(clients, HasDocument()), DocumentKey(), b, x, y);
      assert HasDocument()(x);
    } else {
      LegacyRow(rules, clients, b, x, y);
    }
  }

  lemma LegacyRow(rules: TextRules, clients: seq<Candidate>, b: seq<Candidate>, x: Candidate, y: Candidate)
    requires WellFormed(ByNameCityState(rules, clients))
    requires b in Filter(Values(ByNameCityState(rules, clients)), SomeLegacy(rules)) && x in b && y in b
    ensures SharesBucket(rules, clients, x, y)
  {
    assert SomeLegacy(rules)(b);
    var z :| z in b && IsLegacy(rules, z);
    RowMembers(clients, IdentityKey(rules), b, x, y);
    RowMembers(clients, IdentityKey(rules), b, x, z);
  }

  lemma RowMembers<T>(items: seq<T>, key: T -> string, b: seq<T>, x: T, y: T)
    requires WellFormed(GroupBy(items, key)) && b in Values(GroupBy(items, key)) && x in b && y in b
    ensures x in items && y in items && key(x) == key(y)
  {
    var t := GroupBy(items, key);
    var i :| 0 <= i < |t.order| && b == Values(t)[i];
    ValueAt(items, key, i);
    assert HasKey(key, t.order[i])(x) && HasKey(key, t.order[i])(y);
  }

  /** Sharing a bucket means being listed in one. */
  lemma SharedBucketExists(rules: TextRules, clients: seq<Candidate>, x: Candidate, y: Candidate)
    returns (b: seq<Candidate>)
    requires SharesBucket(rules, clients, x, y)
    ensures b in Buckets(rules, clients) && x in b && y in b
  {
    if CodeOf(x) == CodeOf(y) && CodeOf(x) != "" {
      assert HasCode()(x) && HasCode()(y);
      b := RowWith(Filter(clients, HasCode()), CodeKey(), x, y);
    } else if DocumentOf(x) == DocumentOf(y) && DocumentOf(x) != "" {
      assert HasDocument()(x) && HasDocument()(y);
      b := RowWith(Filter(clients, HasDocument()), DocumentKey(), x, y);
    } else {
      var z :| z in clients && NameKey(rules, z) == NameKey(rules, x) && IsLegacy(rules, z);
      b := RowWith(clients, IdentityKey(rules), x, y);
      assert HasKey(IdentityKey(rules), NameKey(rules, x))(z);
      assert z in b && SomeLegacy(rules)(b);
    }
  }

  lemma RowWith<T>(items: seq<T>, key: T -> string, x: T, y: T) returns (b: seq<T>)
    requires x in items && y in items && key(x) == key(y)
    ensures WellFormed(GroupBy(items, key)) && b in Values(GroupBy(items, key)) && x in b && y in b
    ensures b == Row(items, key, key(x))
  {
    GroupByRows(items, key);
    var i := KeyAt(items, key, x);
    ValueAt(items, key, i);
    b := Values(GroupBy(items, key))[i];
    assert HasKey(key, key(x))(x) && HasKey(key, key(x))(y);
  }

  // ----- Linking first-to-rest is enough -----

  ghost predicate ChainedIfSame(rules: TextRules, clients: seq<Candidate>, rep: Labels, x: Candidate, y: Candidate) {
    x in clients && y in clients && Same(rep, x.id, y.id) ==> Duplicates(rules, clients, x, y)
  }

  /** Nothing beyond chains of buckets has been joined. */
  ghost predicate OnlyChained(rules: TextRules, clients: seq<Candidate>, rep: Labels) {
    forall x, y :: ChainedIfSame(rules, clients, rep, x, y)
  }

  ghost predicate SameAsFirst(rep: Labels, b: seq<Candidate>, i: int) {
    0 <= i < |b| ==> Same(rep, b[0].id, b[i].id)
  }

  /** The first `n` members of the bucket share one representative. */
  ghost predicate Joined(rep: Labels, b: seq<Candidate>, n: nat) {
    forall i | i < n :: SameAsFirst(rep, b, i)
  }

  ghost predicate BucketJoined(rep: Labels, buckets: seq<seq<Candidate>>, k: int) {
    0 <= k < |buckets| ==> Joined(rep, buckets[k], |buckets[k]|)
  }

  ghost predicate AllJoined(rep: Labels, buckets: seq<seq<Candidate>>, j: nat) {
    forall k | k < j :: BucketJoined(rep, buckets, k)
  }

  lemma MergeKeepsJoined(rep: Labels, a: string, b: string, bucket: seq<Candidate>, n: nat)
    requires a in rep && b in rep && Joined(rep, bucket, n)
    ensures Joined(Merged(rep, a, b), bucket, n)
  {
    forall i | i < n ensures SameAsFirst(Merged(rep, a, b), bucket, i) {
      assert SameAsFirst(rep, bucket, i);
    }
  }

  lemma MergeKeepsAllJoined(rep: Labels, a: string, b: string, buckets: seq<seq<Candidate>>, j: nat)
    requires a in rep && b in rep && AllJoined(rep, buckets, j)
    ensures AllJoined(Merged(rep, a, b), buckets, j)
  {
    forall k | k < j ensures BucketJoined(Merged(rep, a, b), buckets, k) {
      assert BucketJoined(rep, buckets, k);
      if 0 <= k < |buckets| {
        MergeKeepsJoined(rep, a, b, buckets[k], |buckets[k]|);
      }
    }
  }

  lemma MergeKeepsOnlyChained(rules: TextRules, clients: seq<Candidate>, rep: Labels, a: Candidate, b: Candidate)
    requires OnlyChained(rules, clients, rep) && a.id in rep && b.id in rep
    requires SharesBucket(rules, clients, a, b)
    ensures OnlyChained(rules, clients, Merged(rep, a.id, b.id))
  {
    var rep' := Merged(rep, a.id, b.id);
    forall x, y ensures ChainedIfSame(rules, clients, rep', x, y) {
      if x in clients && y in clients && Same(rep', x.id, y.id) {
        MergedChain(rules, clients, rep, a, b, x, y);
      }
    }
  }

  lemma MergedChain(rules: TextRules, clients: seq<Candidate>, rep: Labels, a: Candidate, b: Candidate, x: Candidate,
                    y: Candidate)
    requires OnlyChained(rules, clients, rep) && a.id in rep && b.id in rep && x in clients && y in clients
    requires SharesBucket(rules, clients, a, b)
    requires Same(Merged(rep, a.id, b.id), x.id, y.id)
    ensures Duplicates(rules, clients, x, y)
  {
    var r := Bucketed(rules, clients);
    assert r(a, b);
    LinkedStep(r, a, b);
    MergedSame(rep, a.id, b.id, x.id, y.id);
    assert ChainedIfSame(rules, clients, rep, x, y);
    if Same(rep, x.id, a.id) && Same(rep, b.id, y.id) {
      assert ChainedIfSame(rules, clients, rep, x, a) && ChainedIfSame(rules, clients, rep, b, y);
      LinkedTrans(r, x, a, b);
      LinkedTrans(r, x, b, y);
    } else if Same(rep, x.id, b.id) && Same(rep, a.id, y.id) {
      assert ChainedIfSame(rules, clients, rep, x, b) && ChainedIfSame(rules, clients, rep, a, y);
      LinkedTrans(r, x, b, a);
      LinkedTrans(r, x, a, y);
    }
  }

  /** After the linking loop: every bucket is joined, and nothing else is. */
  ghost predicate Settled(rules: TextRules, clients: seq<Candidate>, rep: Labels) {
    && OnlyChained(rules, clients, rep)
    && (forall c | c in clients :: c.id in rep)
    && AllJoined(rep, Buckets(rules, clients), |Buckets(rules, clients)|)
  }

  /** Then the classes are exactly the duplicate chains. */
  lemma ClassesAreDuplicateChains(rules: TextRules, clients: seq<Candidate>, rep: Labels, x: Candidate, y: Candidate)
    requires Settled(rules, clients, rep) && x in clients && y in clients
    ensures Label(rep, x.id) == Label(rep, y.id) <==> Duplicates(rules, clients, x, y)
  {
    assert ChainedIfSame(rules, clients, rep, x, y);
    if Duplicates(rules, clients, x, y) {
      var r := Bucketed(rules, clients);
      var cls := (c: Candidate) => Label(rep, c.id);
      forall u, v | r(u, v) ensures cls(u) == cls(v) {
        BucketSame(rules, clients, rep, u, v);
      }
      LinkedRespects(r, cls, x, y);
    }
  }

  lemma BucketSame(rules: TextRules, clients: seq<Candidate>, rep: Labels, u: Candidate, v: Candidate)
    requires Settled(rules, clients, rep) && SharesBucket(rules, clients, u, v)
    ensures Same(rep, u.id, v.id)
  {
    var b := SharedBucketExists(rules, clients, u, v);
    var k :| 0 <= k < |Buckets(rules, clients)| && Buckets(rules, clients)[k] == b;
    assert BucketJoined(rep, Buckets(rules, clients), k);
    var i, j :| 0 <= i < |b| && b[i] == u && 0 <= j < |b| && b[j] == v;
    assert SameAsFirst(rep, b, i) && SameAsFirst(rep, b, j);
  }

  // ----- From id lists back to clients -----

  ghost function LabelKey(rep: Labels, r: string): Candidate -> bool {
    (c: Candidate) => Label(rep, c.id) == r
  }

  lemma {:induction false} FilteredIds(clients: seq<Candidate>, rep: Labels, r: string)
    ensures Row(Ids(clients), ByLabel(rep), r) == Ids(Filter(clients, LabelKey(rep, r)))
  {
    if clients != [] {
      var init, last := clients[..|clients| - 1], clients[|clients| - 1];
      var byId, byClient := HasKey(ByLabel(rep), r), LabelKey(rep, r);
      assert Ids(clients)[..|clients| - 1] == Ids(init);
      assert byId(last.id) == byClient(last);
      assert clients[..|clients|] == clients && Ids(clients)[..|clients|] == Ids(clients);
      FilterStep(Ids(clients), |init|, byId);
      FilterStep(clients, |init|, byClient);
      hide Filter, Label;
      FilteredIds(init, rep, r);
      IdsAppend(Filter(init, byClient), last);
    }
  }

  lemma IdsAppend(clients: seq<Candidate>, c: Candidate)
    ensures Ids(clients + [c]) == Ids(clients) + [c.id]
  {
  }

  ghost function DuplicateOf(rules: TextRules, clients: seq<Candidate>, x: Candidate): Candidate -> bool {
    (y: Candidate) => Duplicates(rules, clients, x, y)
  }

  ghost function ClassOf(rules: TextRules, clients: seq<Candidate>, x: Candidate): seq<Candidate> {
    Filter(clients, DuplicateOf(rules, clients, x))
  }

  /** A class: all loaded clients chained to its first member, in load order. */
  ghost predicate IsClass(rules: TextRules, clients: seq<Candidate>, g: seq<Candidate>) {
    g != [] && g[0] in clients && g == ClassOf(rules, clients, g[0])
  }

  ghost predicate NotInBoth<T>(groups: seq<seq<T>>, i: int, j: int, x: T) {
    0 <= i < j < |groups| ==> !(x in groups[i] && x in groups[j])
  }

  ghost predicate Covered<T(!new)>(all: seq<T>, groups: seq<seq<T>>, x: T) {
    x in all ==> exists g :: g in groups && x in g
  }

  /** The classes of the loaded clients: disjoint, and covering them. */
  ghost predicate AreClasses(rules: TextRules, clients: seq<Candidate>, classes: seq<seq<Candidate>>) {
    && (forall g | g in classes :: IsClass(rules, clients, g))
    && (forall i, j, x :: NotInBoth(classes, i, j, x))
    && (forall x :: Covered(clients, classes, x))
  }

  /** The filter at the end: a class is worth reporting. */
  function WorthCleaning(rules: TextRules): seq<Candidate> -> bool {
    (g: seq<Candidate>) => |g| > 1 || SomeLegacy(rules)(g)
  }

  ghost predicate CoveredIfWorth(rules: TextRules, clients: seq<Candidate>, groups: seq<seq<Candidate>>, x: Candidate) {
    x in clients && WorthCleaning(rules)(ClassOf(rules, clients, x)) ==> exists g :: g in groups && x in g
  }

  /** What is returned: exactly the classes worth cleaning. */
  ghost predicate AreDuplicateGroups(rules: TextRules, clients: seq<Candidate>, groups: seq<seq<Candidate>>) {
    && (forall g | g in groups :: IsClass(rules, clients, g) && WorthCleaning(rules)(g))
    && (forall i, j, x :: NotInBoth(groups, i, j, x))
    && (forall x :: CoveredIfWorth(rules, clients, groups, x))
  }

  function Lookup(byId: map<string, Candidate>, ids: seq<string>): seq<Candidate> {
    if ids == [] then []
    else Lookup(byId, ids[..|ids| - 1]) + if ids[|ids| - 1] in byId then [byId[ids[|ids| - 1]]] else []
  }

  lemma {:induction false} LookupIds(byId: map<string, Candidate>, cs: seq<Candidate>)
    requires forall c | c in cs :: c.id in byId && byId[c.id] == c
    ensures Lookup(byId, Ids(cs)) == cs
  {
    if cs != [] {
      assert cs[|cs| - 1] in cs;
      LookupIds(byId, cs[..|cs| - 1]);
      assert Ids(cs)[..|cs| - 1] == Ids(cs[..|cs| - 1]);
    }
  }

  lemma ClassBack(rules: TextRules, clients: seq<Candidate>, rep: Labels, byId: map<string, Candidate>, k: nat)
    requires Settled(rules, clients, rep) && EachOnce(Ids(clients)) && k < |Classes(Ids(clients), rep)|
    requires forall c | c in clients :: c.id in byId && byId[c.id] == c
    ensures var g := Lookup(byId, Classes(Ids(clients), rep)[k]);
            g != [] && g[0] in clients && g == ClassOf(rules, clients, g[0]) && Ids(g) == Classes(Ids(clients), rep)[k]
  {
    var ids := Classes(Ids(clients), rep)[k];
    ClassShape(Ids(clients), rep, k);
    var r := Label(rep, ids[0]);
    FilteredIds(clients, rep, r);
    var cs := Filter(clients, LabelKey(rep, r));
    assert ids == Ids(cs);
    LookupIds(byId, cs);
    assert cs[0] in cs;
    forall y | y in clients ensures LabelKey(rep, r)(y) == DuplicateOf(rules, clients, cs[0])(y) {
      ClassesAreDuplicateChains(rules, clients, rep, cs[0], y);
    }
    FilterSame(clients, LabelKey(rep, r), DuplicateOf(rules, clients, cs[0]));
  }

  function LookupAll(byId: map<string, Candidate>, groups: seq<seq<string>>): (r: seq<seq<Candidate>>)
    ensures |r| == |groups| && forall k | 0 <= k < |r| :: r[k] == Lookup(byId, groups[k])
  {
    seq(|groups|, k requires 0 <= k < |groups| => Lookup(byId, groups[k]))
  }

  /** Two clients listed in two classes would put their ids in both. */
  lemma ClassesBack(rules: TextRules, clients: seq<Candidate>, rep: Labels, byId: map<string, Candidate>)
    requires Settled(rules, clients, rep) && EachOnce(Ids(clients))
    requires forall c | c in clients :: c.id in byId && byId[c.id] == c
    ensures AreClasses(rules, clients, LookupAll(byId, Classes(Ids(clients), rep)))
  {
    var idClasses := Classes(Ids(clients), rep);
    var classes: seq<seq<Candidate>> := LookupAll(byId, idClasses);
    forall k | 0 <= k < |classes| ensures IsClass(rules, clients, classes[k]) {
      ClassBack(rules, clients, rep, byId, k);
    }
    hide Settled, EachOnce, Ids, LookupAll, IsClass, NotInBoth, Covered;
    forall i, j, x ensures NotInBoth(classes, i, j, x) {
      ClassesApartBack(rules, clients, rep, byId, i, j, x);
    }
    forall x ensures Covered(clients, classes, x) {
      CoveredBack(rules, clients, rep, byId, x);
    }
  }

  lemma ClassesApartBack(rules: TextRules, clients: seq<Candidate>, rep: Labels, byId: map<string, Candidate>,
                         i: int, j: int, x: Candidate)
    requires Settled(rules, clients, rep) && EachOnce(Ids(clients))
    requires forall c | c in clients :: c.id in byId && byId[c.id] == c
    ensures NotInBoth(LookupAll(byId, Classes(Ids(clients), rep)), i, j, x)
  {
    var classes: seq<seq<Candidate>> := LookupAll(byId, Classes(Ids(clients), rep));
    if 0 <= i < j < |classes| {
      ClassBack(rules, clients, rep, byId, i);
      ClassBack(rules, clients, rep, byId, j);
      InIds(classes[i], x);
      InIds(classes[j], x);
      ClassesDisjoint(Ids(clients), rep, i, j, x.id);
    }
  }

  lemma CoveredBack(rules: TextRules, clients: seq<Candidate>, rep: Labels, byId: map<string, Candidate>, x: Candidate)
    requires Settled(rules, clients, rep) && EachOnce(Ids(clients))
    requires forall c | c in clients :: c.id in byId && byId[c.id] == c
    ensures Covered(clients, LookupAll(byId, Classes(Ids(clients), rep)), x)
  {
    if x in clients {
      var classes: seq<seq<Candidate>> := LookupAll(byId, Classes(Ids(clients), rep));
      InIds(clients, x);
      var k := ClassesCover(Ids(clients), rep, x.id);
      ClassBack(rules, clients, rep, byId, k);
      var m :| 0 <= m < |classes[k]| && Ids(classes[k])[m] == x.id;
      var c: Candidate := classes[k][m];
      assert c in classes[k] && byId[c.id] == c && byId[x.id] == x;
    }
  }

  lemma InIds(cs: seq<Candidate>, x: Candidate)
    ensures x in cs ==> x.id in Ids(cs)
  {
    if x in cs {
      var i :| 0 <= i < |cs| && cs[i] == x;
      assert Ids(cs)[i] == x.id;
    }
  }

  /** Filtering the classes leaves exactly the ones worth cleaning. */
  lemma FilterClasses(rules: TextRules, clients: seq<Candidate>, classes: seq<seq<Candidate>>)
    requires AreClasses(rules, clients, classes)
    ensures AreDuplicateGroups(rules, clients, Filter(classes, WorthCleaning(rules)))
  {
    var groups := Filter(classes, WorthCleaning(rules));
    FilterDisjoint(classes, WorthCleaning(rules));
    forall x ensures CoveredIfWorth(rules, clients, groups, x) {
      if x in clients && WorthCleaning(rules)(ClassOf(rules, clients, x)) {
        assert Covered(clients, classes, x);
        var g :| g in classes && x in g;
        assert IsClass(rules, clients, g);
        SameClass(rules, clients, g[0], x);
        assert g in groups;
      }
    }
  }

  lemma SameClass(rules: TextRules, clients: seq<Candidate>, x: Candidate, y: Candidate)
    requires x in clients && y in ClassOf(rules, clients, x)
    ensures ClassOf(rules, clients, x) == ClassOf(rules, clients, y)
  {
    var r := Bucketed(rules, clients);
    assert DuplicateOf(rules, clients, x)(y);
    LinkedSym(r, x, y);
    forall z | z in clients ensures DuplicateOf(rules, clients, x)(z) == DuplicateOf(rules, clients, y)(z) {
      if Linked(r, x, z) {
        LinkedTrans(r, y, x, z);
      }
      if Linked(r, y, z) {
        LinkedTrans(r, x, y, z);
      }
    }
    FilterSame(clients, DuplicateOf(rules, clients, x), DuplicateOf(rules, clients, y));
  }

  lemma {:induction false} FilterDisjoint<T(!new)>(s: seq<seq<T>>, p: seq<T> -> bool)
    requires forall i, j, x :: NotInBoth(s, i, j, x)
    ensures forall i, j, x :: NotInBoth(Filter(s, p), i, j, x)
  {
    if s != [] {
      var init, last := s[..|s| - 1], s[|s| - 1];
      forall i, j, x ensures NotInBoth(init, i, j, x) {
        assert NotInBoth(s, i, j, x);
      }
      FilterDisjoint(init, p);
      var kept := Filter(init, p);
      forall i, j, x ensures NotInBoth(Filter(s, p), i, j, x) {
        assert NotInBoth(kept, i, j, x);
        if 0 <= i < j == |kept| < |Filter(s, p)| {
          assert kept[i] in kept;
          var k :| 0 <= k < |init| && init[k] == kept[i];
          assert NotInBoth(s, k, |init|, x);
        }
      }
    }
  }

  // ----- The function itself -----

  lemma FreshId(clients: seq<Candidate>, i: nat)
    requires DistinctIds(clients) && i < |clients|
    ensures clients[i].id !in Ids(clients[..i])
    ensures Ids(clients[..i + 1]) == Ids(clients[..i]) + [clients[i].id]
    ensures Singletons(clients[..i + 1]) == Added(Singletons(clients[..i]), clients[i].id)
  {
  }

  lemma CodesStep(clients: seq<Candidate>, i: nat)
    requires i < |clients|
    ensures ByCode(clients[..i + 1]) ==
            if CodeOf(clients[i]) != "" then Put(ByCode(clients[..i]), CodeOf(clients[i]), clients[i])
            else ByCode(clients[..i])
  {
    FilteredGroupStep(clients, i, HasCode(), CodeKey());
  }

  lemma DocumentsStep(clients: seq<Candidate>, i: nat)
    requires i < |clients|
    ensures ByDocument(clients[..i + 1]) ==
            if DocumentOf(clients[i]) != "" then Put(ByDocument(clients[..i]), DocumentOf(clients[i]), clients[i])
            else ByDocument(clients[..i])
  {
    FilteredGroupStep(clients, i, HasDocument(), DocumentKey());
  }

  lemma FilteredGroupStep<T>(items: seq<T>, i: nat, p: T -> bool, key: T -> string)
    requires i < |items|
    ensures GroupBy(Filter(items[..i + 1], p), key) ==
            if p(items[i]) then Put(GroupBy(Filter(items[..i], p), key), key(items[i]), items[i])
            else GroupBy(Filter(items[..i], p), key)
  {
    FilterStep(items, i, p);
    var kept := Filter(items[..i], p);
    assert (kept + [items[i]])[..|kept|] == kept;
    assert kept + [] == kept;
  }

  /** Every loaded client has been added. */
  ghost predicate IsAdded(keys: seq<string>, rep: Labels, c: Candidate) {
    c.id in keys && c.id in rep
  }

  ghost predicate AllAdded(clients: seq<Candidate>, keys: seq<string>, rep: Labels) {
    forall c | c in clients :: IsAdded(keys, rep, c)
  }

  /** What the linking loop keeps while it works on bucket `j`. */
  ghost predicate Linking(rules: TextRules, clients: seq<Candidate>, keys: seq<string>, rep: Labels,
                          buckets: seq<seq<Candidate>>, j: nat) {
    && buckets == Buckets(rules, clients)
    && AllAdded(clients, keys, rep)
    && OnlyChained(rules, clients, rep)
    && AllJoined(rep, buckets, j)
  }

  /** The linking loop: the first member of each bucket is united with each of the rest. */
  method LinkBuckets(ghost rules: TextRules, ghost clients: seq<Candidate>, dsu: DisjointSet,
                     buckets: seq<seq<Candidate>>)
    requires dsu.Valid() && Linking(rules, clients, dsu.keys, dsu.rep, buckets, 0)
    modifies dsu
    ensures dsu.Valid() && dsu.keys == old(dsu.keys)
    ensures Linking(rules, clients, dsu.keys, dsu.rep, buckets, |buckets|)
  {
    for j := 0 to |buckets|
      invariant dsu.Valid() && dsu.keys == old(dsu.keys)
      invariant Linking(rules, clients, dsu.keys, dsu.rep, buckets, j)
    {
      if |buckets[j]| < 2 {
        ShortBucket(rules, clients, dsu.keys, dsu.rep, buckets, j);
      } else {
        LinkBucket(rules, clients, dsu, buckets, j);
      }
    }
  }

  method LinkBucket(ghost rules: TextRules, ghost clients: seq<Candidate>, dsu: DisjointSet,
                    buckets: seq<seq<Candidate>>, j: nat)
    requires j < |buckets| && |buckets[j]| >= 2
    requires dsu.Valid() && Linking(rules, clients, dsu.keys, dsu.rep, buckets, j)
    modifies dsu
    ensures dsu.Valid() && dsu.keys == old(dsu.keys)
    ensures Linking(rules, clients, dsu.keys, dsu.rep, buckets, j + 1)
  {
    var first := buckets[j][0];
    for m := 1 to |buckets[j]|
      invariant dsu.Valid() && dsu.keys == old(dsu.keys)
      invariant Linking(rules, clients, dsu.keys, dsu.rep, buckets, j)
      invariant m > 1 ==> Joined(dsu.rep, buckets[j], m)
    {
      UnionStep(rules, clients, dsu.keys, dsu.rep, buckets, j, m);
      dsu.Union(first.id, buckets[j][m].id);
    }
    BucketDone(dsu.rep, buckets, j);
  }

  lemma ShortBucket(rules: TextRules, clients: seq<Candidate>, keys: seq<string>, rep: Labels,
                    buckets: seq<seq<Candidate>>, j: nat)
    requires j < |buckets| && |buckets[j]| < 2 && Linking(rules, clients, keys, rep, buckets, j)
    ensures Linking(rules, clients, keys, rep, buckets, j + 1)
  {
    var b := buckets[j];
    if |b| == 1 {
      assert b[0] in b && b in Buckets(rules, clients);
      BucketMemberLoaded(rules, clients, b, b[0]);
      assert IsAdded(keys, rep, b[0]);
    }
    SingleJoined(rep, b);
    BucketDone(rep, buckets, j);
  }

  lemma BucketMemberLoaded(rules: TextRules, clients: seq<Candidate>, b: seq<Candidate>, x: Candidate)
    requires b in Buckets(rules, clients) && x in b
    ensures x in clients
  {
    BucketMembersShare(rules, clients, b, x, x);
  }

  lemma SingleJoined(rep: Labels, b: seq<Candidate>)
    requires |b| < 2 && (|b| == 1 ==> b[0].id in rep)
    ensures Joined(rep, b, |b|)
  {
    forall i | i < |b| ensures SameAsFirst(rep, b, i) {
    }
  }

  lemma BucketDone(rep: Labels, buckets: seq<seq<Candidate>>, j: nat)
    requires j < |buckets| && AllJoined(rep, buckets, j) && Joined(rep, buckets[j], |buckets[j]|)
    ensures AllJoined(rep, buckets, j + 1)
  {
    forall k | k < j + 1 ensures BucketJoined(rep, buckets, k) {
      assert k < j ==> BucketJoined(rep, buckets, k);
    }
  }

  lemma UnionStep(rules: TextRules, clients: seq<Candidate>, keys: seq<string>, rep: Labels,
                  buckets: seq<seq<Candidate>>, j: nat, m: nat)
    requires j < |buckets| && 1 <= m < |buckets[j]|
    requires Linking(rules, clients, keys, rep, buckets, j)
    requires m > 1 ==> Joined(rep, buckets[j], m)
    ensures var a, b := buckets[j][0].id, buckets[j][m].id;
            && WithKey(WithKey(keys, a), b) == keys
            && Linking(rules, clients, keys, Merged(AddedBoth(rep, a, b), a, b), buckets, j)
            && Joined(Merged(AddedBoth(rep, a, b), a, b), buckets[j], m + 1)
  {
    var group := buckets[j];
    var a, b := group[0], group[m];
    BucketMembersShare(rules, clients, group, a, b);
    assert IsAdded(keys, rep, a) && IsAdded(keys, rep, b);
    MergedJoins(rep, a.id, b.id);
    var after := Merged(rep, a.id, b.id);
    MergeKeepsOnlyChained(rules, clients, rep, a, b);
    MergeKeepsAllJoined(rep, a.id, b.id, buckets, j);
    forall c | c in clients ensures IsAdded(keys, after, c) {
      assert IsAdded(keys, rep, c);
    }
    if m > 1 {
      MergeKeepsJoined(rep, a.id, b.id, group, m);
    }
    forall i | i < m + 1 ensures SameAsFirst(after, group, i) {
      if 0 < i < m {
        assert SameAsFirst(after, group, i);
      } else if i == m || i == 0 {
        assert Same(after, group[0].id, group[i].id);
      }
    }
  }

  lemma StartSeparate(rules: TextRules, clients: seq<Candidate>, keys: seq<string>, rep: Labels)
    requires DistinctIds(clients) && keys == Ids(clients) && rep == Singletons(clients)
    ensures Linking(rules, clients, keys, rep, Buckets(rules, clients), 0)
  {
    forall c | c in clients ensures IsAdded(keys, rep, c) {
      InIds(clients, c);
    }
    forall k | k < 0 ensures BucketJoined(rep, Buckets(rules, clients), k) {
    }
    forall x, y ensures ChainedIfSame(rules, clients, rep, x, y) {
      if x in clients && y in clients && Same(rep, x.id, y.id) {
        assert x == y;
        LinkedRefl(Bucketed(rules, clients), x);
      }
    }
  }

  ghost function Singletons(clients: seq<Candidate>): Labels {
    map id | id in Ids(clients) :: id
  }

  /** The first loop: every client is added and dropped into its three buckets. */
  method IndexClients(rules: TextRules, clients: seq<Candidate>)
    returns (dsu: DisjointSet, byCode: Table<Candidate>, byDocument: Table<Candidate>,
             byNameCityState: Table<Candidate>)
    requires DistinctIds(clients)
    ensures fresh(dsu) && dsu.Valid() && dsu.keys == Ids(clients) && dsu.rep == Singletons(clients)
    ensures byCode == ByCode(clients) && byDocument == ByDocument(clients)
    ensures byNameCityState == ByNameCityState(rules, clients)
  {
    dsu := new DisjointSet();
    byCode, byDocument, byNameCityState := EmptyTable(), EmptyTable(), EmptyTable();
    for i := 0 to |clients|
      invariant dsu.Valid() && fresh(dsu)
      invariant dsu.keys == Ids(clients[..i]) && dsu.rep == Singletons(clients[..i])
      invariant byCode == ByCode(clients[..i]) && byDocument == ByDocument(clients[..i])
      invariant byNameCityState == ByNameCityState(rules, clients[..i])
    {
      var client := clients[i];
      FreshId(clients, i);
      CodesStep(clients, i);
      DocumentsStep(clients, i);
      GroupByStep(clients, i, IdentityKey(rules));
      dsu.Add(client.id);
      if CodeOf(client) != "" {
        byCode := Put(byCode, CodeOf(client), client);
      }
      if DocumentOf(client) != "" {
        byDocument := Put(byDocument, DocumentOf(client), client);
      }
      byNameCityState := Put(byNameCityState, NameKey(rules, client), client);
    }
    assert clients[..|clients|] == clients;
  }

  method BuildDuplicateGroups(rules: TextRules, clients: seq<Candidate>) returns (groups: seq<seq<Candidate>>)
    requires DistinctIds(clients)
    ensures AreDuplicateGroups(rules, clients, groups)
  {
    var dsu, byCode, byDocument, byNameCityState := IndexClients(rules, clients);
    TablesWellFormed(rules, clients);
    StartSeparate(rules, clients, dsu.keys, dsu.rep);
    var legacyNameGroups := Filter(Values(byNameCityState), SomeLegacy(rules));
    LinkBuckets(rules, clients, dsu, Values(byCode) + Values(byDocument) + legacyNameGroups);
    var idGroups := dsu.Groups();
    groups := Filter(LookupAll(ById(clients), idGroups), WorthCleaning(rules));
    GroupsBack(rules, clients, dsu.keys, dsu.rep);
  }

  lemma GroupsBack(rules: TextRules, clients: seq<Candidate>, keys: seq<string>, rep: Labels)
    requires DistinctIds(clients) && keys == Ids(clients)
    requires Linking(rules, clients, keys, rep, Buckets(rules, clients), |Buckets(rules, clients)|)
    ensures AreDuplicateGroups(rules, clients,
                               Filter(LookupAll(ById(clients), Classes(keys, rep)), WorthCleaning(rules)))
  {
    forall c | c in clients ensures c.id in rep {
      assert IsAdded(keys, rep, c);
    }
    ClassesBack(rules, clients, rep, ById(clients));
    FilterClasses(rules, clients, LookupAll(ById(clients), Classes(keys, rep)));
  }

  lemma TablesWellFormed(rules: TextRules, clients: seq<Candidate>)
    ensures WellFormed(ByCode(clients)) && WellFormed(ByDocument(clients))
            && WellFormed(ByNameCityState(rules, clients))
  {
    GroupByRows(Filter(clients, HasCode()), CodeKey());
    GroupByRows(Filter(clients, HasDocument()), DocumentKey());
    GroupByRows(clients, IdentityKey(rules));
  }

  function ById(clients: seq<Candidate>): (m: map<string, Candidate>)
    requires DistinctIds(clients)
    ensures forall c | c in clients :: c.id in m && m[c.id] == c
  {
    map c | c in clients :: c.id := c
  }
}
