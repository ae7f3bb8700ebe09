/** The opportunity import (`apps/api/src/routes/crudRoutes.ts`): the client index kept while rows are read, the
    tiered client resolver, one transaction per row and the accounting of every row. */
module OpportunityImport {
  import opened Text
  import opened Grouping

  /** A client as the index keeps it, with its normalised texts. */
  datatype Candidate = Candidate(id: string, name: string, city: string, state: string, cnpj: string)

  datatype Client = Client(id: string, name: string, city: Option<string>, state: Option<string>, cnpj: Option<string>)

  /** `normalizeClientLookup`, the UUID v4 pattern and `normalizeOpportunityTitle`. */
  datatype Rules = Rules(lookup: string -> string, isUuid: string -> bool, title: string -> string)

  function ToCandidate(rules: Rules, c: Client): Candidate {
    Candidate(c.id, rules.lookup(c.name), rules.lookup(TextOf(c.city)), rules.lookup(TextOf(c.state)),
              Digits(TextOf(c.cnpj)))
  }

  // ----- The resolver -----

  datatype Input = Input(clientNameOrId: string, cnpj: Option<string>, city: Option<string>, state: Option<string>)

  datatype Resolution = Resolved(client: Candidate) | Ambiguous(candidates: seq<Candidate>) | NotFound

  function HasId(id: string): Candidate -> bool {
    (c: Candidate) => c.id == id
  }

  function HasCnpj(cnpj: string): Candidate -> bool {
    (c: Candidate) => c.cnpj != "" && c.cnpj == cnpj
  }

  function Named(name: string): Candidate -> bool {
    (c: Candidate) => name != "" && c.name == name
  }

  function InCity(city: string): Candidate -> bool {
    (c: Candidate) => c.city == city
  }

  function InState(state: string): Candidate -> bool {
    (c: Candidate) => c.state == state
  }

  function Judge(matches: seq<Candidate>): Resolution {
    if |matches| == 1 then Resolved(matches[0]) else if |matches| > 1 then Ambiguous(matches) else NotFound
  }

  function Resolve(rules: Rules, input: Input, clients: seq<Candidate>): Resolution {
    var raw := Trim(input.clientNameOrId);
    var name, city, state := rules.lookup(raw), rules.lookup(TextOf(input.city)), rules.lookup(TextOf(input.state));
    var cnpj := Digits(TextOf(input.cnpj));
    if rules.isUuid(raw) then Judge(Filter(clients, HasId(raw)))
    else if cnpj != "" then Judge(Filter(clients, HasCnpj(cnpj)))
    else
      var named := if name != "" then Filter(clients, Named(name)) else [];
      var there := Filter(named, InCity(city));
      var within := Filter(named, InState(state));
      if city != "" && there != [] then Judge(there)
      else if state != "" && within != [] then Judge(within)
      else Judge(named)
  }

  // ----- What the resolver decides, without reference to lists -----

  function Both(p: Candidate -> bool, q: Candidate -> bool): Candidate -> bool {
    (c: Candidate) => p(c) && q(c)
  }

  /** The questions asked about a client, most telling first. */
  function Tiers(rules: Rules, input: Input): seq<Candidate -> bool> {
    var raw := Trim(input.clientNameOrId);
    var name, city, state := rules.lookup(raw), rules.lookup(TextOf(input.city)), rules.lookup(TextOf(input.state));
    var cnpj := Digits(TextOf(input.cnpj));
    if rules.isUuid(raw) then [HasId(raw)]
    else if cnpj != "" then [HasCnpj(cnpj)]
    else
      (if city != "" then [Both(Named(name), InCity(city))] else [])
      + (if state != "" then [Both(Named(name), InState(state))] else [])
      + [Named(name)]
  }

  ghost predicate Answered(clients: seq<Candidate>, tier: Candidate -> bool) {
    exists c | c in clients :: tier(c)
  }

  /** The first question that some client answers. */
  ghost predicate Deciding(clients: seq<Candidate>, tiers: seq<Candidate -> bool>, k: int) {
    && 0 <= k < |tiers| && Answered(clients, tiers[k])
    && forall j | 0 <= j < k :: !Answered(clients, tiers[j])
  }

  ghost predicate Sole(clients: seq<Candidate>, tier: Candidate -> bool, c: Candidate) {
    c in clients && tier(c) && forall d | d in clients && tier(d) :: d == c
  }

  ghost predicate DistinctIds(clients: seq<Candidate>) {
    forall i, j | 0 <= i < j < |clients| :: clients[i].id != clients[j].id
  }

  lemma {:induction false} FilterDistinct(clients: seq<Candidate>, p: Candidate -> bool)
    requires DistinctIds(clients)
    ensures DistinctIds(Filter(clients, p))
  {
    if clients != [] {
      var init, last := clients[..|clients| - 1], clients[|clients| - 1];
      FilterDistinct(init, p);
      forall c | c in init ensures c.id != last.id {
        var i :| 0 <= i < |init| && init[i] == c;
        assert clients[i].id != clients[|init|].id;
      }
      var kept := Filter(init, p);
      assert forall i | 0 <= i < |kept| :: kept[i] in init;
    }
  }

  /** Judging the matches of a tier, read as a statement about its members. */
  lemma JudgeMembers(clients: seq<Candidate>, tier: Candidate -> bool, matches: seq<Candidate>)
    requires DistinctIds(matches) && forall c :: c in matches <==> c in clients && tier(c)
    ensures Judge(matches).NotFound? <==> !Answered(clients, tier)
    ensures forall c :: Judge(matches) == Resolved(c) <==> Sole(clients, tier, c)
  {
    if |matches| > 1 {
      assert matches[0].id != matches[1].id;
      assert matches[0] in matches && matches[1] in matches;
    } else if |matches| == 1 {
      assert matches[0] in matches;
    }
  }

  /** `r` is what the tiers decide about the clients. */
  ghost predicate Decided(clients: seq<Candidate>, tiers: seq<Candidate -> bool>, r: Resolution) {
    && (forall c :: r == Resolved(c) <==> exists k :: Deciding(clients, tiers, k) && Sole(clients, tiers[k], c))
    && (r.NotFound? <==> forall k :: !Deciding(clients, tiers, k))
  }

  ghost predicate MembersOf(clients: seq<Candidate>, tier: Candidate -> bool, matches: seq<Candidate>) {
    DistinctIds(matches) && forall c :: c in matches <==> c in clients && tier(c)
  }

  /** Judging the matches of the last tier, or of one that has some, decides when no tier before it has any. */
  lemma JudgingDecides(clients: seq<Candidate>, tiers: seq<Candidate -> bool>, k: nat, matches: seq<Candidate>)
    requires k < |tiers| && MembersOf(clients, tiers[k], matches)
    requires forall j | 0 <= j < k :: !Answered(clients, tiers[j])
    requires matches != [] || k == |tiers| - 1
    ensures Decided(clients, tiers, Judge(matches))
  {
    JudgeMembers(clients, tiers[k], matches);
    hide Answered, Sole, Judge, DistinctIds;
    if matches != [] {
      assert matches[0] in matches;
      assert Judge(matches).NotFound? ==> matches == [] by {
        JudgeEmpty(matches);
      }
      assert Deciding(clients, tiers, k);
      forall j | Deciding(clients, tiers, j) ensures j == k {
      }
    } else {
      JudgeEmpty(matches);
      forall j ensures !Deciding(clients, tiers, j) {
      }
    }
  }

  lemma JudgeEmpty(matches: seq<Candidate>)
    ensures Judge(matches).NotFound? <==> matches == []
  {
  }

  lemma FilterMembers(clients: seq<Candidate>, p: Candidate -> bool)
    requires DistinctIds(clients)
    ensures MembersOf(clients, p, Filter(clients, p))
  {
    FilterDistinct(clients, p);
  }

  lemma FilterBothMembers(clients: seq<Candidate>, p: Candidate -> bool, q: Candidate -> bool, matches: seq<Candidate>)
    requires MembersOf(clients, p, matches)
    ensures MembersOf(clients, Both(p, q), Filter(matches, q))
  {
    FilterDistinct(matches, q);
  }

  lemma Unanswered(clients: seq<Candidate>, tier: Candidate -> bool, matches: seq<Candidate>)
    requires MembersOf(clients, tier, matches)
    ensures matches == [] <==> !Answered(clients, tier)
  {
    if matches != [] {
      assert matches[0] in matches;
    }
  }

  /** Resolved exactly to the sole member of the first tier that has any; not found exactly when no tier has one. */
  lemma ResolvesSoleMember(rules: Rules, input: Input, clients: seq<Candidate>)
    requires DistinctIds(clients)
    ensures Decided(clients, Tiers(rules, input), Resolve(rules, input, clients))
  {
    hide Trim, Digits, TextOf, Filter, Decided, MembersOf, DistinctIds, Answered, Judge;
    var raw := Trim(input.clientNameOrId);
    var name, city, state := rules.lookup(raw), rules.lookup(TextOf(input.city)), rules.lookup(TextOf(input.state));
    var cnpj := Digits(TextOf(input.cnpj));
    var tiers := Tiers(rules, input);
    if rules.isUuid(raw) {
      FilterMembers(clients, HasId(raw));
      JudgingDecides(clients, tiers, 0, Filter(clients, HasId(raw)));
    } else if cnpj != "" {
      FilterMembers(clients, HasCnpj(cnpj));
      JudgingDecides(clients, tiers, 0, Filter(clients, HasCnpj(cnpj)));
    } else {
      var named := if name != "" then Filter(clients, Named(name)) else [];
      NamedMembers(clients, name);
      FilterBothMembers(clients, Named(name), InCity(city), named);
      FilterBothMembers(clients, Named(name), InState(state), named);
      var there, within := Filter(named, InCity(city)), Filter(named, InState(state));
      Unanswered(clients, Both(Named(name), InCity(city)), there);
      Unanswered(clients, Both(Named(name), InState(state)), within);
      if city != "" && there != [] {
        JudgingDecides(clients, tiers, 0, there);
      } else if state != "" && within != [] {
        JudgingDecides(clients, tiers, if city != "" then 1 else 0, within);
      } else {
        JudgingDecides(clients, tiers, |tiers| - 1, named);
      }
    }
  }

  lemma NamedMembers(clients: seq<Candidate>, name: string)
    requires DistinctIds(clients)
    ensures MembersOf(clients, Named(name), if name != "" then Filter(clients, Named(name)) else [])
  {
    FilterMembers(clients, Named(name));
  }

  /** A lookup by UUID is never ambiguous while ids are distinct. */
  lemma UuidNeverAmbiguous(rules: Rules, input: Input, clients: seq<Candidate>)
    requires DistinctIds(clients) && rules.isUuid(Trim(input.clientNameOrId))
    ensures !Resolve(rules, input, clients).Ambiguous?
  {
    var raw := Trim(input.clientNameOrId);
    FilterDistinct(clients, HasId(raw));
    var matches := Filter(clients, HasId(raw));
    hide DistinctIds, Filter, Trim;
    if |matches| > 1 {
      TwoIds(matches);
    }
  }

  lemma TwoIds(list: seq<Candidate>)
    requires DistinctIds(list) && |list| > 1
    ensures exists c, d | c in list && d in list :: c.id != d.id
  {
    assert list[0] in list && list[1] in list;
  }

  /** The order in which the index lists its clients does not change the answer. */
  lemma OrderDoesNotMatter(rules: Rules, input: Input, clients: seq<Candidate>, others: seq<Candidate>)
    requires DistinctIds(clients) && DistinctIds(others) && forall c :: c in clients <==> c in others
    ensures var r, q := Resolve(rules, input, clients), Resolve(rules, input, others);
            && (r.Ambiguous? <==> q.Ambiguous?) && (!r.Ambiguous? ==> r == q)
  {
    ResolvesSoleMember(rules, input, clients);
    ResolvesSoleMember(rules, input, others);
    hide *;
    DecidedAlike(clients, others, Tiers(rules, input), Resolve(rules, input, clients), Resolve(rules, input, others));
  }

  lemma DecidedAlike(clients: seq<Candidate>, others: seq<Candidate>, tiers: seq<Candidate -> bool>, r: Resolution,
                     q: Resolution)
    requires Decided(clients, tiers, r) && Decided(others, tiers, q) && forall c :: c in clients <==> c in others
    ensures (r.Ambiguous? <==> q.Ambiguous?) && (!r.Ambiguous? ==> r == q)
  {
    SameAnswers(clients, others, tiers);
    hide Answered;
    assert forall k :: Deciding(clients, tiers, k) <==> Deciding(others, tiers, k);
    assert forall k: int, c | 0 <= k < |tiers| :: Sole(clients, tiers[k], c) <==> Sole(others, tiers[k], c);
    hide Deciding, Sole;
    assert r.Resolved? ==> q == Resolved(r.client);
    assert q.Resolved? ==> r == Resolved(q.client);
  }

  lemma SameAnswers(clients: seq<Candidate>, others: seq<Candidate>, tiers: seq<Candidate -> bool>)
    requires forall c :: c in clients <==> c in others
    ensures forall j | 0 <= j < |tiers| :: Answered(clients, tiers[j]) <==> Answered(others, tiers[j])
  {
  }

  // ----- The index -----

  datatype Index = Index(byId: map<string, Candidate>, list: seq<Candidate>)

  function EmptyIndex(): Index {
    Index(map[], [])
  }

  /** `candidate` in place of the entry with its id. */
  function ReplaceById(list: seq<Candidate>, c: Candidate): (r: seq<Candidate>)
    ensures |r| == |list|
    ensures forall i | 0 <= i < |list| :: r[i] == if list[i].id == c.id then c else list[i]
  {
    seq(|list|, i requires 0 <= i < |list| => if list[i].id == c.id then c else list[i])
  }

  function Upserted(x: Index, c: Candidate): Index {
    Index(x.byId[c.id := c], if c.id in x.byId then ReplaceById(x.list, c) else x.list + [c])
  }

  ghost predicate Listed(x: Index, id: string) {
    id in x.byId <==> exists i | 0 <= i < |x.list| :: x.list[i].id == id
  }

  /** The map and the list describe the same clients, each id once. */
  ghost predicate Coherent(x: Index) {
    && DistinctIds(x.list)
    && (forall i | 0 <= i < |x.list| :: x.list[i].id in x.byId && x.byId[x.list[i].id] == x.list[i])
    && (forall id :: Listed(x, id))
  }

  lemma UpsertKeepsCoherent(x: Index, c: Candidate)
    requires Coherent(x)
    ensures Coherent(Upserted(x, c))
  {
    var y := Upserted(x, c);
    assert Listed(x, c.id);
    UpsertLists(x, c);
    hide Listed;
    UpsertMembers(x, c);
  }

  lemma UpsertLists(x: Index, c: Candidate)
    requires Coherent(x)
    ensures forall id :: Listed(Upserted(x, c), id)
  {
    var y := Upserted(x, c);
    forall id ensures Listed(y, id) {
      assert Listed(x, id) && Listed(x, c.id);
      if i :| 0 <= i < |x.list| && x.list[i].id == id {
        assert y.list[i].id == id;
      } else if id == c.id {
        assert y.list[|x.list|] == c;
      }
    }
  }

  lemma UpsertMembers(x: Index, c: Candidate)
    requires Coherent(x)
    ensures forall d :: d in Upserted(x, c).list <==> d == c || (d in x.list && d.id != c.id)
  {
    var y := Upserted(x, c);
    assert Listed(x, c.id);
    if c.id in x.byId {
      var k :| 0 <= k < |x.list| && x.list[k].id == c.id;
      assert y.list[k] == c;
    } else {
      assert y.list[|x.list|] == c;
    }
    hide Listed;
    forall d | d in x.list && d.id != c.id ensures d in y.list {
      var i :| 0 <= i < |x.list| && x.list[i] == d;
      assert y.list[i] == d;
    }
  }

  // ----- One row -----

  datatype Reason =
    | InvalidRow | ForbiddenOwner | OwnerConflict | OwnerMissing | InvalidStage | InvalidStatus | InvalidDate
    | ClientAmbiguous | ClientMissing | Duplicate | UnexpectedError

  datatype Outcome = Created | Updated | Ignored(reason: Reason) | Failed(reason: Reason)

  datatype Owner = OwnerIs(id: string) | Conflict | Unknown

  /** A row that passed the schema, with what was worked out about its owner, stage, status and dates; `columns` holds
      the other columns to write, by name: the dates and every number or text that is given. */
  datatype Row = Row(clientNameOrId: string, cnpj: Option<string>, city: Option<string>, title: string,
                     forbiddenOwner: bool, owner: Owner, stage: Option<string>, statusKnown: bool, datesParse: bool,
                     datesInOrder: bool, columns: map<string, string>, notes: Option<string>)

  datatype Mode = Skip | Upsert

  /** `seller` is the caller's id when the caller is a seller. */
  datatype Options = Options(createClientIfMissing: bool, dryRun: bool, dedupe: bool, mode: Mode, openOnly: bool,
                             seller: Option<string>)

  datatype Opportunity = Opportunity(id: string, clientId: string, ownerId: string, stage: string, title: string,
                                     recent: bool, columns: map<string, string>, notes: Option<string>)

  datatype DealKey = DealKey(clientId: string, ownerId: string, stage: string)

  /** The import's memory, and the two tables it writes. */
  datatype State = State(index: Index, cache: map<DealKey, seq<Opportunity>>, previews: map<string, Candidate>,
                         clients: set<string>, opportunities: seq<Opportunity>)

  datatype Point = AtLookup | AtClientCreate | AtDedupe | AtWrite | AtCommit

  /** What the database answers while a row is handled: the client its own lookup finds, the keys it hands out,
      where it throws, if it does, and the time. */
  datatype World = World(existing: Option<Client>, newClientId: string, newOpportunityId: string,
                         throwsAt: Option<Point>,
                         now: string)

  /** The checks made before the transaction, in their order. */
  function Problem(row: Row): Option<Reason> {
    if row.forbiddenOwner then Some(ForbiddenOwner)
    else if row.owner.Conflict? then Some(OwnerConflict)
    else if row.owner.Unknown? then Some(OwnerMissing)
    else if row.stage.None? then Some(InvalidStage)
    else if !row.statusKnown then Some(InvalidStatus)
    else if !row.datesParse || !row.datesInOrder then Some(InvalidDate)
    else None
  }

  /** The import does not pass the row's state on to the resolver. */
  function InputOf(row: Row): Input {
    Input(Trim(row.clientNameOrId), row.cnpj, row.city, None)
  }

  function PreviewKey(rules: Rules, row: Row): string {
    rules.lookup(Trim(row.clientNameOrId)) + "|" + Digits(TextOf(row.cnpj)) + "|" + rules.lookup(TextOf(row.city))
  }

  function PreviewClient(rules: Rules, row: Row, n: nat): Candidate {
    ToCandidate(rules, Client("preview-client-" + NatText(n), Trim(row.clientNameOrId),
                              Some(if row.city.Some? then row.city.value else "N/A"), None, row.cnpj))
  }

  function ImportedClient(rules: Rules, row: Row, id: string): Candidate {
    ToCandidate(rules, Client(id, Trim(row.clientNameOrId), Some("N/A"), Some("NA"), None))
  }

  datatype Located = Found(client: Candidate) | Several | Nobody | LookupThrew

  function Locate(rules: Rules, opts: Options, s: State, row: Row, w: World): (State, Located) {
    match Resolve(rules, InputOf(row), s.index.list)
    case Resolved(c) => (s, Found(c))
    case Ambiguous(_) => (s, Several)
    case NotFound =>
      if w.throwsAt == Some(AtLookup) then (s, LookupThrew)
      else if w.existing.Some? then
        var c := ToCandidate(rules, w.existing.value);
        (s.(index := Upserted(s.index, c)), Found(c))
      else if !opts.createClientIfMissing then (s, Nobody)
      else if !opts.dryRun then
        if w.throwsAt == Some(AtClientCreate) then (s, LookupThrew)
        else
          var c := ImportedClient(rules, row, w.newClientId);
          (s.(index := Upserted(s.index, c), clients := s.clients + {c.id}), Found(c))
      else
        var k := PreviewKey(rules, row);
        if k in s.previews then (s, Found(s.previews[k]))
        else
          var c := PreviewClient(rules, row, |s.previews| + 1);
          (s.(index := Upserted(s.index, c), previews := s.previews[k := c]), Found(c))
  }

  function Comparable(opts: Options, k: DealKey): Opportunity -> bool {
    (o: Opportunity) => o.clientId == k.clientId && o.ownerId == k.ownerId && o.recent
                        && (if opts.openOnly then o.stage != "ganho" && o.stage != "perdido" else o.stage == k.stage)
  }

  function Titled(rules: Rules, title: string): Opportunity -> bool {
    (o: Opportunity) => rules.title(o.title) == rules.title(title)
  }

  /** The newest of the list with that title; the list is in order of creation. */
  function Newest(rules: Rules, title: string, list: seq<Opportunity>): Option<Opportunity> {
    var same := Filter(list, Titled(rules, title));
    if same == [] then None else Some(same[|same| - 1])
  }

  /** The notes of an update: what the row says, under a stamp, after what was there. */
  function ImportNotes(existing: Option<string>, given: Option<string>, now: string): Option<string> {
    if TextOf(given) == "" then existing
    else Some((if TextOf(existing) != "" then existing.value + "\n\n" else "") + "[Import " + now + "] " + given.value)
  }

  /** The opportunity after the update; its owner changes unless a seller imports over another seller's. */
  function Merged(opts: Options, o: Opportunity, k: DealKey, row: Row, now: string): Opportunity {
    o.(stage := k.stage,
       ownerId := if opts.seller.None? || opts.seller == Some(o.ownerId) then k.ownerId else o.ownerId,
       columns := o.columns + row.columns,
       notes := ImportNotes(o.notes, row.notes, now))
  }

  function Refreshed(opts: Options, list: seq<Opportunity>, id: string, k: DealKey, row: Row,
                     now: string): (r: seq<Opportunity>)
    ensures |r| == |list|
  {
    seq(|list|, i requires 0 <= i < |list| => if list[i].id == id then Merged(opts, list[i], k, row, now) else list[i])
  }

  function Imported(row: Row, k: DealKey, id: string): Opportunity {
    Opportunity(id, k.clientId, k.ownerId, k.stage, row.title, true, row.columns, row.notes)
  }

  /** An update adds and replaces but takes nothing away: what the row does not give stays, and the old notes open the
      new ones. */
  lemma MergeTakesNothingAway(opts: Options, o: Opportunity, k: DealKey, row: Row, now: string)
    ensures var n := Merged(opts, o, k, row, now);
            && n.id == o.id && n.clientId == o.clientId && n.title == o.title
            && (forall name | name in o.columns ::
                  name in n.columns && (name !in row.columns ==> n.columns[name] == o.columns[name]))
            && (forall name | name in row.columns :: name in n.columns && n.columns[name] == row.columns[name])
            && TextOf(o.notes) <= TextOf(n.notes) && (n.notes == o.notes <==> TextOf(row.notes) == "")
            && (n.ownerId == k.ownerId
                <==> opts.seller.None? || opts.seller == Some(o.ownerId) || o.ownerId == k.ownerId)
  {
    if TextOf(row.notes) != "" {
      var stamped := "[Import " + now + "] " + row.notes.value;
      assert |stamped| > 0;
      assert TextOf(ImportNotes(o.notes, row.notes, now))
        == TextOf(o.notes) + (if TextOf(o.notes) != "" then "\n\n" else "") + stamped;
    }
  }

  datatype Written = Result(outcome: Outcome) | WriteThrew

  function Remembered(opts: Options, s: State, k: DealKey): State {
    if opts.dedupe && k !in s.cache then s.(cache := s.cache[k := Filter(s.opportunities, Comparable(opts, k))]) else s
  }

  /** From the client on: deduplication, then the write. */
  function Write(rules: Rules, opts: Options, s: State, row: Row, k: DealKey, w: World): (State, Written) {
    if opts.dedupe && k !in s.cache && w.throwsAt == Some(AtDedupe) then (s, WriteThrew)
    else
      var t := Remembered(opts, s, k);
      var same := if opts.dedupe then Newest(rules, row.title, t.cache[k]) else None;
      if same.Some? && opts.mode == Skip then (t, Result(Ignored(Duplicate)))
      else if !opts.dryRun && w.throwsAt == Some(AtWrite) then (t, WriteThrew)
      else if same.Some? then
        (if opts.dryRun then t
         else t.(opportunities := Refreshed(opts, t.opportunities, same.value.id, k, row, w.now)), Result(Updated))
      else if opts.dryRun then (t, Result(Created))
      else if k.clientId !in t.clients then (t, WriteThrew)   // the foreign key
      else
        (t.(opportunities := t.opportunities + [Imported(row, k, w.newOpportunityId)]),
         Result(Created))
  }

  function KeyOf(row: Row, c: Candidate): DealKey
    requires Problem(row).None?
  {
    DealKey(c.id, row.owner.id, row.stage.value)
  }

  /** What a thrown transaction leaves: the tables as they were, the memory as it had become. */
  function RolledBack(s: State, t: State): State {
    t.(clients := s.clients, opportunities := s.opportunities)
  }

  function Transaction(rules: Rules, opts: Options, s: State, row: Row, w: World): (State, Written)
    requires Problem(row).None?
  {
    var (t, located) := Locate(rules, opts, s, row, w);
    match located
    case Found(c) => Write(rules, opts, t, row, KeyOf(row, c), w)
    case Several => (t, Result(Failed(ClientAmbiguous)))
    case Nobody => (t, Result(Failed(ClientMissing)))
    case LookupThrew => (t, WriteThrew)
  }

  /** One turn of the row loop. */
  function RowStep(rules: Rules, opts: Options, s: State, row: Row, w: World): (State, Outcome) {
    if Problem(row).Some? then (s, Failed(Problem(row).value))
    else
      var (t, written) := Transaction(rules, opts, s, row, w);
      if written.WriteThrew? || w.throwsAt == Some(AtCommit) then (RolledBack(s, t), Failed(UnexpectedError))
      else (t, written.outcome)
  }

  // ----- What every row keeps -----

  lemma LocateKeepsIndex(rules: Rules, opts: Options, s: State, row: Row, w: World)
    requires Coherent(s.index)
    ensures Coherent(Locate(rules, opts, s, row, w).0.index)
  {
    hide Coherent, Resolve, Upserted;
    forall c: Candidate ensures Coherent(Upserted(s.index, c)) {
      UpsertKeepsCoherent(s.index, c);
    }
  }

  lemma WriteKeepsMemory(rules: Rules, opts: Options, s: State, row: Row, k: DealKey, w: World)
    ensures var t := Write(rules, opts, s, row, k, w).0;
            t.index == s.index && t.previews == s.previews && t.clients == s.clients
    ensures var written := Write(rules, opts, s, row, k, w).1; written.Result? ==> !written.outcome.Failed?
  {
    hide Newest, Filter;
  }

  /** The map and the list agree after every row, whatever the database does. */
  lemma RowKeepsIndex(rules: Rules, opts: Options, s: State, row: Row, w: World)
    requires Coherent(s.index)
    ensures Coherent(RowStep(rules, opts, s, row, w).0.index)
  {
    hide Coherent, Locate, Write;
    if Problem(row).None? {
      LocateKeepsIndex(rules, opts, s, row, w);
      var (t, located) := Locate(rules, opts, s, row, w);
      if located.Found? {
        WriteKeepsMemory(rules, opts, t, row, KeyOf(row, located.client), w);
      }
    }
  }

  /** A row adds one opportunity when it reports `created` outside a preview, and none otherwise; a row that fails
      leaves both tables as they were, and so does every row of a preview. */
  lemma RowAddsWhatItReports(rules: Rules, opts: Options, s: State, row: Row, w: World)
    ensures var (t, outcome) := RowStep(rules, opts, s, row, w);
            && |t.opportunities| == |s.opportunities| + (if outcome.Created? && !opts.dryRun then 1 else 0)
            && s.clients <= t.clients
            && (outcome.Failed? || opts.dryRun ==> t.clients == s.clients && t.opportunities == s.opportunities)
  {
    hide Locate, Write;
    if Problem(row).None? {
      LocateCreatesOnly(rules, opts, s, row, w);
      var (t, located) := Locate(rules, opts, s, row, w);
      if located.Found? {
        WriteAddsWhatItReports(rules, opts, t, row, KeyOf(row, located.client), w);
        assert Transaction(rules, opts, s, row, w) == Write(rules, opts, t, row, KeyOf(row, located.client), w);
      }
    }
  }

  lemma LocateCreatesOnly(rules: Rules, opts: Options, s: State, row: Row, w: World)
    ensures var (t, located) := Locate(rules, opts, s, row, w);
            && t.opportunities == s.opportunities && s.clients <= t.clients
            && (opts.dryRun || !located.Found? ==> t.clients == s.clients)
  {
    hide Resolve, Upserted, InputOf, ToCandidate, PreviewKey, PreviewClient, ImportedClient;
  }

  lemma WriteAddsWhatItReports(rules: Rules, opts: Options, s: State, row: Row, k: DealKey, w: World)
    ensures var (t, written) := Write(rules, opts, s, row, k, w);
            && t.clients == s.clients
            && (opts.dryRun ==> t.opportunities == s.opportunities)
            && (written.Result? ==>
                  && !written.outcome.Failed?
                  && |t.opportunities|
                    == |s.opportunities| + (if written.outcome.Created? && !opts.dryRun then 1 else 0))
  {
    hide Newest, Filter;
  }

  /** Every client the index can hand out exists. */
  ghost predicate Rooted(s: State) {
    forall c | c in s.index.list :: c.id in s.clients
  }

  /** The row gets as far as creating its client. */
  predicate CreatesClient(rules: Rules, opts: Options, s: State, row: Row, w: World) {
    && Problem(row).None? && Resolve(rules, InputOf(row), s.index.list).NotFound? && w.existing.None?
    && opts.createClientIfMissing && !opts.dryRun
    && w.throwsAt != Some(AtLookup) && w.throwsAt != Some(AtClientCreate)
  }

  /** The database throws once the client of the row is known. */
  predicate ThrowsLater(opts: Options, w: World) {
    (opts.dedupe && w.throwsAt == Some(AtDedupe)) || w.throwsAt == Some(AtWrite) || w.throwsAt == Some(AtCommit)
  }

  /** No opportunity belongs to the client. */
  ghost predicate Dealless(list: seq<Opportunity>, id: string) {
    forall o | o in list :: o.clientId != id
  }

  /** A key nobody has used yet; opportunities refer to clients that exist. */
  ghost predicate Unused(s: State, id: string) {
    id !in s.clients && Dealless(s.opportunities, id) && forall k | k in s.cache :: k.clientId != id
  }

  /** Nothing but the empty list is remembered for the client. */
  ghost predicate Unremembered(cache: map<DealKey, seq<Opportunity>>, id: string) {
    forall k | k in cache && k.clientId == id :: cache[k] == []
  }

  lemma {:induction false} NoDeals(opts: Options, list: seq<Opportunity>, k: DealKey)
    requires Dealless(list, k.clientId)
    ensures Filter(list, Comparable(opts, k)) == []
  {
    if list != [] {
      NoDeals(opts, list[..|list| - 1], k);
    }
  }

  /** A client without deals, or with none remembered, has no duplicate: only the database can stop the write. */
  lemma WriteWithoutDeals(rules: Rules, opts: Options, s: State, row: Row, k: DealKey, w: World)
    requires Dealless(s.opportunities, k.clientId) && Unremembered(s.cache, k.clientId)
    ensures var (t, written) := Write(rules, opts, s, row, k, w);
            && (written.WriteThrew? <==>
                  || (opts.dedupe && k !in s.cache && w.throwsAt == Some(AtDedupe))
                  || (!opts.dryRun && (w.throwsAt == Some(AtWrite) || k.clientId !in s.clients)))
            && (written.Result? ==> written.outcome == Created)
            && Unremembered(t.cache, k.clientId)
            && (k.clientId !in s.clients ==> Dealless(t.opportunities, k.clientId))
  {
    NoDeals(opts, s.opportunities, k);
    NothingNewest(rules, row.title);
    hide Filter, Newest, Dealless;
  }

  lemma NothingNewest(rules: Rules, title: string)
    ensures Newest(rules, title, []) == None
  {
  }

  /** What creating a client leaves for the write. */
  function WithClient(s: State, c: Candidate): State {
    s.(index := Upserted(s.index, c), clients := s.clients + {c.id})
  }

  lemma CreatedIsFound(rules: Rules, opts: Options, s: State, row: Row, w: World)
    requires CreatesClient(rules, opts, s, row, w)
    ensures var c := ImportedClient(rules, row, w.newClientId);
            c.id == w.newClientId && Locate(rules, opts, s, row, w) == (WithClient(s, c), Found(c))
  {
    hide Resolve, Upserted, PreviewKey, PreviewClient, InputOf;
    ImportedId(rules, row, w.newClientId);
    hide ImportedClient;
  }

  /** A client newly created: the row fails exactly when the database throws later. */
  lemma NewClientFails(rules: Rules, opts: Options, s: State, row: Row, w: World)
    requires CreatesClient(rules, opts, s, row, w) && Unused(s, w.newClientId)
    ensures RowStep(rules, opts, s, row, w).1 == Failed(UnexpectedError) <==> ThrowsLater(opts, w)
  {
    hide Locate, ImportedClient, Write, Upserted, Resolve, Dealless, Unremembered, InputOf, Problem, Unused;
    CreatedIsFound(rules, opts, s, row, w);
    UnusedIsUnremembered(s, w.newClientId);
    UnusedIsUncached(s, w.newClientId);
    var c := ImportedClient(rules, row, w.newClientId);
    var k := KeyOf(row, c);
    WriteWithoutDeals(rules, opts, WithClient(s, c), row, k, w);
    WriteKeepsMemory(rules, opts, WithClient(s, c), row, k, w);
  }

  lemma UnusedIsUncached(s: State, id: string)
    requires Unused(s, id)
    ensures forall k | k in s.cache :: k.clientId != id
  {
    hide Dealless;
  }

  lemma ImportedId(rules: Rules, row: Row, id: string)
    ensures ImportedClient(rules, row, id).id == id
  {
  }

  /** An import proper keeps its index inside the client table except when the database throws after creating a
      client: the table forgets that client, the index does not. */
  lemma IndexOutlivesRollback(rules: Rules, opts: Options, s: State, row: Row, w: World)
    requires !opts.dryRun && Coherent(s.index) && Rooted(s) && Unused(s, w.newClientId)
    requires w.existing.Some? ==> w.existing.value.id in s.clients
    ensures Rooted(RowStep(rules, opts, s, row, w).0)
            <==> !(CreatesClient(rules, opts, s, row, w) && ThrowsLater(opts, w))
  {
    RootedUnlessRolledBack(rules, opts, s, row, w);
    if CreatesClient(rules, opts, s, row, w) {
      NewClientFails(rules, opts, s, row, w);
    }
    hide RowStep, CreatesClient, ThrowsLater, Rooted;
  }

  lemma RootedUnlessRolledBack(rules: Rules, opts: Options, s: State, row: Row, w: World)
    requires !opts.dryRun && Coherent(s.index) && Rooted(s) && w.newClientId !in s.clients
    requires w.existing.Some? ==> w.existing.value.id in s.clients
    ensures var (t, outcome) := RowStep(rules, opts, s, row, w);
            Rooted(t) <==> !(CreatesClient(rules, opts, s, row, w) && outcome == Failed(UnexpectedError))
  {
    hide Resolve, Write, Coherent, Upserted;
    if Problem(row).None? {
      forall c: Candidate
        ensures forall d :: d in Upserted(s.index, c).list <==> d == c || (d in s.index.list && d.id != c.id) {
        UpsertMembers(s.index, c);
      }
      var (t, located) := Locate(rules, opts, s, row, w);
      if located.Found? {
        WriteKeepsMemory(rules, opts, t, row, KeyOf(row, located.client), w);
      }
      var c := ImportedClient(rules, row, w.newClientId);
      if CreatesClient(rules, opts, s, row, w) {
        assert c in t.index.list;
      }
    }
  }

  // ----- A client the table has forgotten -----

  /** The index lists `c`; the client table does not, and no opportunity is or is remembered to be its. */
  ghost predicate Forgotten(s: State, c: Candidate) {
    && Coherent(s.index) && c in s.index.list && c.id !in s.clients
    && Dealless(s.opportunities, c.id) && Unremembered(s.cache, c.id)
  }

  /** The database neither finds nor hands out the key again. */
  predicate Avoids(w: World, id: string) {
    w.newClientId != id && (w.existing.Some? ==> w.existing.value.id != id)
  }

  /** The state a rolled-back creation leaves. */
  lemma RolledBackState(rules: Rules, opts: Options, s: State, row: Row, w: World)
    requires CreatesClient(rules, opts, s, row, w) && Unused(s, w.newClientId) && ThrowsLater(opts, w)
    ensures var c := ImportedClient(rules, row, w.newClientId);
            RowStep(rules, opts, s, row, w).0
              == RolledBack(s, Write(rules, opts, WithClient(s, c), row, KeyOf(row, c), w).0)
  {
    hide Locate, ImportedClient, Write, WithClient, Unused, InputOf, Resolve, ThrowsLater, RolledBack, Problem;
    NewClientFails(rules, opts, s, row, w);
    CreatedIsFound(rules, opts, s, row, w);
    var c := ImportedClient(rules, row, w.newClientId);
    WriteKeepsMemory(rules, opts, WithClient(s, c), row, KeyOf(row, c), w);
  }

  lemma WithClientLists(s: State, c: Candidate)
    requires Coherent(s.index)
    ensures c in WithClient(s, c).index.list && Coherent(WithClient(s, c).index)
  {
    UpsertMembers(s.index, c);
    UpsertKeepsCoherent(s.index, c);
    hide Upserted, Coherent;
  }

  lemma UnusedIsUnremembered(s: State, id: string)
    requires Unused(s, id)
    ensures id !in s.clients && Dealless(s.opportunities, id) && Unremembered(s.cache, id)
  {
    hide Dealless;
  }

  /** A rolled-back creation leaves its client forgotten. */
  lemma RollbackForgets(rules: Rules, opts: Options, s: State, row: Row, w: World)
    requires Coherent(s.index) && Unused(s, w.newClientId)
    requires CreatesClient(rules, opts, s, row, w) && ThrowsLater(opts, w)
    ensures Forgotten(RowStep(rules, opts, s, row, w).0, ImportedClient(rules, row, w.newClientId))
  {
    hide RowStep, Resolve, Coherent, Unused, ThrowsLater, InputOf, ImportedClient, Upserted, Dealless, Unremembered,
         Write;
    RolledBackState(rules, opts, s, row, w);
    ImportedId(rules, row, w.newClientId);
    UnusedIsUnremembered(s, w.newClientId);
    var c := ImportedClient(rules, row, w.newClientId);
    WithClientLists(s, c);
    WriteWithoutDeals(rules, opts, WithClient(s, c), row, KeyOf(row, c), w);
    WriteKeepsMemory(rules, opts, WithClient(s, c), row, KeyOf(row, c), w);
  }

  /** Outside a preview, looking for a client does one of two things to the state. */
  lemma LocateUpserts(rules: Rules, opts: Options, s: State, row: Row, w: World) returns (d: Candidate)
    requires !opts.dryRun
    ensures var t := Locate(rules, opts, s, row, w).0;
            || t == s
            || (t == s.(index := Upserted(s.index, d)) && w.existing.Some? && d.id == w.existing.value.id)
            || (t == WithClient(s, d) && d.id == w.newClientId)
  {
    hide Resolve, Upserted, PreviewKey, PreviewClient, InputOf;
    ImportedId(rules, row, w.newClientId);
    d := if w.existing.Some? then ToCandidate(rules, w.existing.value) else ImportedClient(rules, row, w.newClientId);
  }

  lemma UpsertKeepsListed(x: Index, d: Candidate, c: Candidate)
    requires Coherent(x) && c in x.list && d.id != c.id
    ensures Coherent(Upserted(x, d)) && c in Upserted(x, d).list
  {
    UpsertMembers(x, d);
    UpsertKeepsCoherent(x, d);
    hide Upserted, Coherent;
  }

  lemma LocateKeepsForgotten(rules: Rules, opts: Options, s: State, row: Row, w: World, c: Candidate)
    requires !opts.dryRun && Forgotten(s, c) && Avoids(w, c.id)
    ensures Forgotten(Locate(rules, opts, s, row, w).0, c)
  {
    hide Locate, Upserted, Coherent, Dealless, Unremembered;
    var d := LocateUpserts(rules, opts, s, row, w);
    if Locate(rules, opts, s, row, w).0 != s {
      UpsertKeepsListed(s.index, d, c);
    }
  }

  lemma WriteKeepsForgotten(rules: Rules, opts: Options, s: State, row: Row, k: DealKey, w: World, c: Candidate)
    requires !opts.dryRun && Forgotten(s, c)
    ensures Forgotten(Write(rules, opts, s, row, k, w).0, c)
    ensures k.clientId == c.id ==> Write(rules, opts, s, row, k, w).1 == WriteThrew
  {
    WriteKeepsMemory(rules, opts, s, row, k, w);
    if k.clientId == c.id {
      WriteWithoutDeals(rules, opts, s, row, k, w);
    } else {
      OtherWriteKeepsDealless(rules, opts, s, row, k, w, c.id);
    }
    hide Write, Coherent, Dealless, Unremembered;
  }

  lemma OtherWriteKeepsDealless(rules: Rules, opts: Options, s: State, row: Row, k: DealKey, w: World, id: string)
    requires k.clientId != id && Dealless(s.opportunities, id) && Unremembered(s.cache, id)
    ensures var t := Write(rules, opts, s, row, k, w).0; Dealless(t.opportunities, id) && Unremembered(t.cache, id)
  {
    hide Newest, Filter, Refreshed, Dealless;
    forall changed ensures Dealless(Refreshed(opts, s.opportunities, changed, k, row, w.now), id) {
      RefreshedKeepsDealless(opts, s.opportunities, changed, k, row, w.now, id);
    }
    AppendedKeepsDealless(s.opportunities, Imported(row, k, w.newOpportunityId), id);
  }

  lemma AppendedKeepsDealless(list: seq<Opportunity>, o: Opportunity, id: string)
    requires Dealless(list, id) && o.clientId != id
    ensures Dealless(list + [o], id)
  {
  }

  lemma RefreshedKeepsDealless(opts: Options, list: seq<Opportunity>, changed: string, k: DealKey, row: Row,
                               now: string, id: string)
    requires Dealless(list, id)
    ensures Dealless(Refreshed(opts, list, changed, k, row, now), id)
  {
    var r := Refreshed(opts, list, changed, k, row, now);
    forall o | o in r ensures o.clientId != id {
      var i :| 0 <= i < |r| && r[i] == o;
      assert list[i] in list;
    }
  }

  /** No row ends the state, and every row without a problem of its own that resolves to the client fails. */
  lemma RowKeepsForgotten(rules: Rules, opts: Options, s: State, row: Row, w: World, c: Candidate)
    requires !opts.dryRun && Forgotten(s, c) && Avoids(w, c.id)
    ensures Forgotten(RowStep(rules, opts, s, row, w).0, c)
    ensures Problem(row).None? && Resolve(rules, InputOf(row), s.index.list) == Resolved(c) ==>
              RowStep(rules, opts, s, row, w).1 == Failed(UnexpectedError)
  {
    hide Locate, Write, Resolve, InputOf, Coherent, Avoids, Dealless, Unremembered;
    if Problem(row).None? {
      LocateKeepsForgotten(rules, opts, s, row, w, c);
      LocateResolved(rules, opts, s, row, w, c);
      var (t, located) := Locate(rules, opts, s, row, w);
      LocateAddsNothing(rules, opts, s, row, w);
      if located.Found? {
        WriteKeepsForgotten(rules, opts, t, row, KeyOf(row, located.client), w, c);
        WriteKeepsMemory(rules, opts, t, row, KeyOf(row, located.client), w);
      }
    }
  }

  lemma LocateAddsNothing(rules: Rules, opts: Options, s: State, row: Row, w: World)
    ensures Locate(rules, opts, s, row, w).0.opportunities == s.opportunities
  {
    hide Resolve, InputOf, Upserted, ToCandidate, ImportedClient, PreviewKey, PreviewClient;
  }

  lemma LocateResolved(rules: Rules, opts: Options, s: State, row: Row, w: World, c: Candidate)
    ensures Resolve(rules, InputOf(row), s.index.list) == Resolved(c) ==>
              Locate(rules, opts, s, row, w) == (s, Found(c))
  {
    hide Resolve, InputOf;
  }

  // ----- The same row twice -----

  ghost predicate AnswersSome(tiers: seq<Candidate -> bool>, c: Candidate) {
    exists i | 0 <= i < |tiers| :: tiers[i](c)
  }

  lemma {:induction false} NoneBefore(clients: seq<Candidate>, tiers: seq<Candidate -> bool>, n: nat)
    requires n <= |tiers| && forall k :: !Deciding(clients, tiers, k)
    ensures forall j | 0 <= j < n :: !Answered(clients, tiers[j])
  {
    if n > 0 {
      NoneBefore(clients, tiers, n - 1);
      assert !Deciding(clients, tiers, n - 1);
    }
  }

  /** A client added to clients of whom none answers decides alone. */
  lemma NewcomerDecides(others: seq<Candidate>, all: seq<Candidate>, tiers: seq<Candidate -> bool>, c: Candidate,
                        r: Resolution)
    requires forall k :: !Deciding(others, tiers, k)
    requires c in all && forall d | d in all :: d == c || d in others
    requires Decided(all, tiers, r)
    ensures if AnswersSome(tiers, c) then r == Resolved(c) else r.NotFound?
  {
    NoneBefore(others, tiers, |tiers|);
    AnsweredByNewcomer(others, all, tiers, c);
    hide Answered;
    if AnswersSome(tiers, c) {
      var k := FirstAnswer(tiers, c);
      assert Deciding(all, tiers, k);
    }
  }

  lemma AnsweredByNewcomer(others: seq<Candidate>, all: seq<Candidate>, tiers: seq<Candidate -> bool>, c: Candidate)
    requires forall j | 0 <= j < |tiers| :: !Answered(others, tiers[j])
    requires c in all && forall d | d in all :: d == c || d in others
    ensures forall j | 0 <= j < |tiers| :: Answered(all, tiers[j]) <==> tiers[j](c)
    ensures forall j | 0 <= j < |tiers| :: tiers[j](c) ==> Sole(all, tiers[j], c)
  {
    forall j | 0 <= j < |tiers| ensures forall d | d in all && tiers[j](d) :: d == c {
      assert !Answered(others, tiers[j]);
    }
  }

  lemma {:induction false} FirstAnswer(tiers: seq<Candidate -> bool>, c: Candidate) returns (k: nat)
    requires AnswersSome(tiers, c)
    ensures k < |tiers| && tiers[k](c) && forall j | 0 <= j < k :: !tiers[j](c)
  {
    k := 0;
    while !tiers[k](c)
      invariant k < |tiers| && forall j | 0 <= j < k :: !tiers[j](c)
      invariant exists i | k <= i < |tiers| :: tiers[i](c)
      decreases |tiers| - k
    {
      k := k + 1;
    }
  }

  /** Outside a preview, the client a row was handled with is found in the index when the row comes again exactly
      when it answers one of the row's questions; otherwise the index knows nothing. */
  lemma KnownAgain(rules: Rules, opts: Options, s: State, row: Row, w: World, c: Candidate)
    requires !opts.dryRun && Coherent(s.index) && Locate(rules, opts, s, row, w).1 == Found(c)
    ensures var r := Resolve(rules, InputOf(row), Locate(rules, opts, s, row, w).0.index.list);
            if AnswersSome(Tiers(rules, InputOf(row)), c) then r == Resolved(c) else r.NotFound?
  {
    hide Resolve, Coherent, Upserted, InputOf, ImportedClient, Tiers, AnswersSome, ToCandidate, Decided;
    var input := InputOf(row);
    var tiers := Tiers(rules, input);
    var r := Resolve(rules, input, s.index.list);
    CoherentDistinct(s.index);
    ResolvesSoleMember(rules, input, s.index.list);
    if r == Resolved(c) {
      ResolvedAnswers(s.index.list, tiers, c);
    } else {
      NotFoundDecides(s.index.list, tiers);
      UpsertMembers(s.index, c);
      UpsertKeepsCoherent(s.index, c);
      var t := Upserted(s.index, c);
      CoherentDistinct(t);
      ResolvesSoleMember(rules, input, t.list);
      NewcomerDecides(s.index.list, t.list, tiers, c, Resolve(rules, input, t.list));
    }
  }

  lemma CoherentDistinct(x: Index)
    requires Coherent(x)
    ensures DistinctIds(x.list)
  {
  }

  lemma ResolvedAnswers(clients: seq<Candidate>, tiers: seq<Candidate -> bool>, c: Candidate)
    requires Decided(clients, tiers, Resolved(c))
    ensures AnswersSome(tiers, c)
  {
    var k :| Deciding(clients, tiers, k) && Sole(clients, tiers[k], c);
    assert tiers[k](c);
  }

  lemma NotFoundDecides(clients: seq<Candidate>, tiers: seq<Candidate -> bool>)
    requires Decided(clients, tiers, NotFound)
    ensures forall k :: !Deciding(clients, tiers, k)
  {
  }

  /** The client the import creates has no document: it answers a row that names it by a non-empty name, without a
      document, and no other (a new key is not what the row gave). */
  lemma CreatedAnswers(rules: Rules, row: Row, id: string)
    ensures var raw := Trim(row.clientNameOrId);
            AnswersSome(Tiers(rules, InputOf(row)), ImportedClient(rules, row, id)) <==>
              if rules.isUuid(raw) then id == raw else Digits(TextOf(row.cnpj)) == "" && rules.lookup(raw) != ""
  {
    TrimIdempotent(row.clientNameOrId);
    hide Trim;
    var tiers, c := Tiers(rules, InputOf(row)), ImportedClient(rules, row, id);
    assert c.cnpj == "";
    assert tiers[|tiers| - 1](c) <==> AnswersSome(tiers, c);
  }

  /** A row created once and handled with the same client again is created again, unless the database throws: the
      deduplication does not see the rows of the file itself, nor does anything remember them. */
  lemma SameRowCreatedTwice(rules: Rules, opts: Options, s: State, row: Row, w: World, again: World, c: Candidate,
                            d: Candidate)
    requires RowStep(rules, opts, s, row, w).1.Created? && Locate(rules, opts, s, row, w).1 == Found(c)
    requires Locate(rules, opts, RowStep(rules, opts, s, row, w).0, row, again).1 == Found(d) && d.id == c.id
    ensures RowStep(rules, opts, RowStep(rules, opts, s, row, w).0, row, again).1.Created? <==>
              again.throwsAt != Some(AtCommit) && (opts.dryRun || again.throwsAt != Some(AtWrite))
  {
    hide Locate, Write, RolledBack;
    CreatedRowWrote(rules, opts, s, row, w, c);
    var (u, _) := Locate(rules, opts, s, row, w);
    var k := KeyOf(row, c);
    var (t, _) := Write(rules, opts, u, row, k, w);
    var (v, _) := Locate(rules, opts, t, row, again);
    LocateOnlyAdds(rules, opts, t, row, again);
    WriteKeepsMemory(rules, opts, u, row, k, w);
    WrittenAgain(rules, opts, u, v, row, k, w, again);
    hide RowStep;
    RowAsWritten(rules, opts, t, row, again, d);
  }

  lemma LocateOnlyAdds(rules: Rules, opts: Options, s: State, row: Row, w: World)
    ensures var t := Locate(rules, opts, s, row, w).0;
            t.opportunities == s.opportunities && t.cache == s.cache && s.clients <= t.clients
  {
    hide Resolve, Upserted, InputOf, ToCandidate, PreviewKey, PreviewClient, ImportedClient;
  }

  lemma CreatedRowWrote(rules: Rules, opts: Options, s: State, row: Row, w: World, c: Candidate)
    requires RowStep(rules, opts, s, row, w).1.Created? && Locate(rules, opts, s, row, w).1 == Found(c)
    ensures Problem(row).None?
    ensures Write(rules, opts, Locate(rules, opts, s, row, w).0, row, KeyOf(row, c), w)
            == (RowStep(rules, opts, s, row, w).0, Result(Created))
  {
    hide Locate, Write, RolledBack, Problem;
  }

  /** A row without a problem whose client is found is created exactly when the write says so and the commit holds. */
  lemma RowAsWritten(rules: Rules, opts: Options, s: State, row: Row, w: World, c: Candidate)
    requires Problem(row).None? && Locate(rules, opts, s, row, w).1 == Found(c)
    ensures RowStep(rules, opts, s, row, w).1.Created? <==>
              && w.throwsAt != Some(AtCommit)
              && Write(rules, opts, Locate(rules, opts, s, row, w).0, row, KeyOf(row, c), w).1 == Result(Created)
  {
    hide Locate, Write, RolledBack, Problem;
    WriteKeepsMemory(rules, opts, Locate(rules, opts, s, row, w).0, row, KeyOf(row, c), w);
  }

  /** Writing the same deal again, on a state that knows what the first write left and no fewer clients. */
  lemma WrittenAgain(rules: Rules, opts: Options, s: State, v: State, row: Row, k: DealKey, w: World, again: World)
    requires Write(rules, opts, s, row, k, w).1 == Result(Created)
    requires v.cache == Write(rules, opts, s, row, k, w).0.cache && s.clients <= v.clients
    ensures Write(rules, opts, v, row, k, again).1 == Result(Created)
            <==> opts.dryRun || again.throwsAt != Some(AtWrite)
  {
    hide Newest, Filter, Refreshed;
  }

  /** A row that created its client and carries a document, or names it by a UUID, creates another client each time
      it comes, as often as the database finds none: the client created has neither. */
  lemma EachTimeAnotherClient(rules: Rules, opts: Options, s: State, row: Row, w: World, again: World)
    requires Coherent(s.index) && CreatesClient(rules, opts, s, row, w)
    requires !AnswersSome(Tiers(rules, InputOf(row)), ImportedClient(rules, row, w.newClientId))
    ensures CreatesClient(rules, opts, RowStep(rules, opts, s, row, w).0, row, again) <==>
              again.existing.None? && again.throwsAt != Some(AtLookup) && again.throwsAt != Some(AtClientCreate)
  {
    CreatedIsFound(rules, opts, s, row, w);
    KnownAgain(rules, opts, s, row, w, ImportedClient(rules, row, w.newClientId));
    RowKeepsLocated(rules, opts, s, row, w);
    hide Resolve, Locate, RowStep, ImportedClient, AnswersSome, Tiers, Coherent, InputOf, WithClient;
  }

  lemma RowKeepsLocated(rules: Rules, opts: Options, s: State, row: Row, w: World)
    requires Problem(row).None?
    ensures RowStep(rules, opts, s, row, w).0.index == Locate(rules, opts, s, row, w).0.index
  {
    hide Locate, Write, Problem;
    var (t, located) := Locate(rules, opts, s, row, w);
    if located.Found? {
      WriteKeepsMemory(rules, opts, t, row, KeyOf(row, located.client), w);
    }
  }

  /** After a rolled-back creation the same row can never be imported again, whatever the database does, when the
      client answers it. */
  lemma RolledBackRowNeverImports(rules: Rules, opts: Options, s: State, row: Row, w: World, again: World)
    requires Coherent(s.index) && Unused(s, w.newClientId) && Avoids(again, w.newClientId)
    requires CreatesClient(rules, opts, s, row, w) && ThrowsLater(opts, w)
    requires AnswersSome(Tiers(rules, InputOf(row)), ImportedClient(rules, row, w.newClientId))
    ensures RowStep(rules, opts, RowStep(rules, opts, s, row, w).0, row, again).1 == Failed(UnexpectedError)
  {
    CreatedIsFound(rules, opts, s, row, w);
    ImportedId(rules, row, w.newClientId);
    RollbackForgets(rules, opts, s, row, w);
    var c := ImportedClient(rules, row, w.newClientId);
    KnownAgain(rules, opts, s, row, w, c);
    RowKeepsLocated(rules, opts, s, row, w);
    hide Resolve, Locate, RowStep, ImportedClient, AnswersSome, Tiers, Coherent, InputOf, WithClient, Forgotten, Unused,
         Avoids, ThrowsLater;
    RowKeepsForgotten(rules, opts, RowStep(rules, opts, s, row, w).0, row, again, c);
  }

  // One row of an import from nothing: the client is created and the write throws.

  function PlainRules(): Rules {
    Rules((t: string) => t, (t: string) => false, (t: string) => t)
  }

  function FreshOptions(): Options {
    Options(true, false, true, Skip, true, None)
  }

  function Nothing(): State {
    State(EmptyIndex(), map[], map[], {}, [])
  }

  function SampleRow(): Row {
    Row("Ana", None, None, "Soja", false, OwnerIs("v1"), Some("prospeccao"), true, true, true, map[], None)
  }

  function ThrowingWorld(): World {
    World(None, "c1", "o1", Some(AtWrite), "2024-01-01")
  }

  lemma SampleCreates()
    ensures CreatesClient(PlainRules(), FreshOptions(), Nothing(), SampleRow(), ThrowingWorld())
  {
    hide Trim, Digits;
    assert forall p: Candidate -> bool :: Filter([], p) == [];
    assert Judge([]).NotFound?;
  }

  lemma NothingIsUnused()
    ensures Coherent(Nothing().index) && Unused(Nothing(), "c1") && Rooted(Nothing())
    ensures ThrowsLater(FreshOptions(), ThrowingWorld()) && ThrowingWorld().newClientId == "c1"
  {
    assert forall id :: Listed(EmptyIndex(), id);
  }

  lemma SampleAnswers()
    ensures AnswersSome(Tiers(PlainRules(), InputOf(SampleRow())), ImportedClient(PlainRules(), SampleRow(), "c1"))
  {
    CreatedAnswers(PlainRules(), SampleRow(), "c1");
    TrimIsTrimmed("Ana");
    hide Trim, Tiers, ImportedClient, InputOf, AnswersSome;
    assert Trim("Ana") == "Ana" by {
      hide *;
      AnaIsTrimmed();
      TrimIsTrimmed("Ana");
    }
  }

  lemma AnaIsTrimmed()
    ensures Trimmed("Ana")
  {
  }

  /** That row fails, its client stays in the index without being in the table, and the row fails again whatever the
      database answers the second time. */
  lemma OneThrowEndsTheClient(again: World)
    requires Avoids(again, "c1")
    ensures var (t, outcome) := RowStep(PlainRules(), FreshOptions(), Nothing(), SampleRow(), ThrowingWorld());
            && outcome == Failed(UnexpectedError) && !Rooted(t)
            && RowStep(PlainRules(), FreshOptions(), t, SampleRow(), again).1 == Failed(UnexpectedError)
  {
    var rules, opts, s, row, w := PlainRules(), FreshOptions(), Nothing(), SampleRow(), ThrowingWorld();
    assert !opts.dryRun && w.existing.None?;
    hide *;
    SampleCreates();
    NothingIsUnused();
    SampleAnswers();
    NewClientFails(rules, opts, s, row, w);
    IndexOutlivesRollback(rules, opts, s, row, w);
    RolledBackRowNeverImports(rules, opts, s, row, w, again);
  }

  // ----- The accounting -----

  datatype Tally = Tally(created: nat, updated: nat, ignored: nat, failed: nat, errors: seq<nat>,
                         skipped: seq<(nat, Reason)>, results: seq<(nat, Outcome)>)

  function NoRows(): Tally {
    Tally(0, 0, 0, 0, [], [], [])
  }

  function Recorded(t: Tally, n: nat, o: Outcome): Tally {
    var u := t.(results := t.results + [(n, o)]);
    match o
    case Created => u.(created := t.created + 1)
    case Updated => u.(updated := t.updated + 1)
    case Ignored(reason) => u.(ignored := t.ignored + 1, skipped := t.skipped + [(n, reason)])
    case Failed(reason) => u.(failed := t.failed + 1, errors := t.errors + [n], skipped := t.skipped + [(n, reason)])
  }

  function InvalidRows(parsed: seq<Option<Row>>): seq<nat> {
    if parsed == [] then []
    else InvalidRows(parsed[..|parsed| - 1]) + (if parsed[|parsed| - 1].None? then [|parsed|] else [])
  }

  function ValidRows(parsed: seq<Option<Row>>): seq<(nat, Row)> {
    if parsed == [] then []
    else ValidRows(parsed[..|parsed| - 1])
         + (if parsed[|parsed| - 1].Some? then [(|parsed|, parsed[|parsed| - 1].value)] else [])
  }

  function TallyInvalid(numbers: seq<nat>): Tally {
    if numbers == [] then NoRows()
    else Recorded(TallyInvalid(numbers[..|numbers| - 1]), numbers[|numbers| - 1], Failed(InvalidRow))
  }

  datatype Progress = Progress(state: State, tally: Tally)

  function Turn(rules: Rules, opts: Options, p: Progress, item: (nat, Row), db: nat -> World): Progress {
    var (after, outcome) := RowStep(rules, opts, p.state, item.1, db(item.0));
    Progress(after, Recorded(p.tally, item.0, outcome))
  }

  function RunRows(rules: Rules, opts: Options, p: Progress, rows: seq<(nat, Row)>, db: nat -> World): Progress {
    if rows == [] then p else Turn(rules, opts, RunRows(rules, opts, p, rows[..|rows| - 1], db), rows[|rows| - 1], db)
  }

  function Numbers<T>(rows: seq<(nat, T)>): (r: seq<nat>)
    ensures |r| == |rows| && forall i | 0 <= i < |r| :: r[i] == rows[i].0
  {
    seq(|rows|, i requires 0 <= i < |rows| => rows[i].0)
  }

  predicate IsOutcome(o: Outcome, kind: Outcome) {
    match kind
    case Created => o.Created?
    case Updated => o.Updated?
    case Ignored(_) => o.Ignored?
    case Failed(_) => o.Failed?
  }

  /** How many results are of the kind of `kind`. */
  function Count(results: seq<(nat, Outcome)>, kind: Outcome): nat {
    if results == [] then 0
    else Count(results[..|results| - 1], kind) + (if IsOutcome(results[|results| - 1].1, kind) then 1 else 0)
  }

  ghost predicate ErrorHeld(t: Tally, n: nat) {
    exists r :: (n, Failed(r)) in t.results
  }

  predicate SkipHeld(t: Tally, skip: (nat, Reason)) {
    (skip.0, Failed(skip.1)) in t.results || (skip.0, Ignored(skip.1)) in t.results
  }

  /** The counters and lists of a tally all tell the same story, told in full by `results`. */
  ghost predicate Balanced(t: Tally) {
    && t.created == Count(t.results, Created) && t.updated == Count(t.results, Updated)
    && t.ignored == Count(t.results, Ignored(Duplicate)) && t.failed == Count(t.results, Failed(InvalidRow))
    && t.created + t.updated + t.ignored + t.failed == |t.results|
    && |t.errors| == t.failed && |t.skipped| == t.ignored + t.failed
    && (forall n | n in t.errors :: ErrorHeld(t, n))
    && (forall skip | skip in t.skipped :: SkipHeld(t, skip))
  }

  lemma CountAppend(results: seq<(nat, Outcome)>, last: (nat, Outcome), kind: Outcome)
    ensures Count(results + [last], kind) == Count(results, kind) + (if IsOutcome(last.1, kind) then 1 else 0)
  {
    assert (results + [last])[..|results|] == results;
  }

  lemma RecordKeepsBalance(t: Tally, n: nat, o: Outcome)
    requires Balanced(t)
    ensures Balanced(Recorded(t, n, o)) && Numbers(Recorded(t, n, o).results) == Numbers(t.results) + [n]
  {
    var u := Recorded(t, n, o);
    CountAppend(t.results, (n, o), Created);
    CountAppend(t.results, (n, o), Updated);
    CountAppend(t.results, (n, o), Ignored(Duplicate));
    CountAppend(t.results, (n, o), Failed(InvalidRow));
    hide Count;
    assert (n, o) == u.results[|t.results|];
    assert forall x | x in t.results :: x in u.results;
    hide Numbers;
    assert Numbers(u.results) == Numbers(t.results) + [n];
    forall m | m in u.errors ensures ErrorHeld(u, m) {
      if m in t.errors {
        assert ErrorHeld(t, m);
      } else {
        assert o.Failed? && (m, Failed(o.reason)) in u.results;
      }
    }
    forall skip | skip in u.skipped ensures SkipHeld(u, skip) {
      assert skip in t.skipped ==> SkipHeld(t, skip);
    }
  }

  lemma NothingBalanced()
    ensures Balanced(NoRows()) && Numbers(NoRows().results) == []
  {
  }

  lemma {:induction false} InvalidBalanced(numbers: seq<nat>)
    ensures Balanced(TallyInvalid(numbers)) && Numbers(TallyInvalid(numbers).results) == numbers
  {
    hide Balanced, Recorded, Numbers;
    if numbers == [] {
      NothingBalanced();
    } else {
      var init, last := numbers[..|numbers| - 1], numbers[|numbers| - 1];
      InvalidBalanced(init);
      RecordKeepsBalance(TallyInvalid(init), last, Failed(InvalidRow));
      assert numbers == init + [last];
    }
  }

  lemma {:induction false} RunBalanced(rules: Rules, opts: Options, p: Progress, rows: seq<(nat, Row)>,
                                       db: nat -> World)
    requires Balanced(p.tally)
    ensures var t := RunRows(rules, opts, p, rows, db).tally;
            Balanced(t) && Numbers(t.results) == Numbers(p.tally.results) + Numbers(rows)
  {
    if rows != [] {
      var init, last := rows[..|rows| - 1], rows[|rows| - 1];
      RunBalanced(rules, opts, p, init, db);
      TurnBalanced(rules, opts, RunRows(rules, opts, p, init, db), last, db);
      NumbersLast(rows);
      hide Balanced, Turn, Numbers;
      assert Numbers(p.tally.results) + (Numbers(init) + [last.0])
        == (Numbers(p.tally.results) + Numbers(init)) + [last.0];
    }
  }

  lemma NumbersLast(rows: seq<(nat, Row)>)
    requires rows != []
    ensures Numbers(rows) == Numbers(rows[..|rows| - 1]) + [rows[|rows| - 1].0]
  {
  }

  lemma TurnBalanced(rules: Rules, opts: Options, p: Progress, item: (nat, Row), db: nat -> World)
    requires Balanced(p.tally)
    ensures var t := Turn(rules, opts, p, item, db).tally;
            Balanced(t) && Numbers(t.results) == Numbers(p.tally.results) + [item.0]
  {
    hide Balanced, RowStep, Recorded;
    RecordKeepsBalance(p.tally, item.0, RowStep(rules, opts, p.state, item.1, db(item.0)).1);
  }

  function OneTo(n: nat): seq<nat> {
    seq(n, i => i + 1)
  }

  lemma {:induction false} EveryRowOnce(parsed: seq<Option<Row>>)
    ensures multiset(InvalidRows(parsed) + Numbers(ValidRows(parsed))) == multiset(OneTo(|parsed|))
  {
    hide InvalidRows, ValidRows, Numbers, OneTo;
    if parsed == [] {
      NoRowsAtAll();
    } else {
      var init, n := parsed[..|parsed| - 1], |parsed|;
      EveryRowOnce(init);
      LastRow(parsed);
      OneToLast(n);
      hide *;
      AddToEither(InvalidRows(init), Numbers(ValidRows(init)), n, OneTo(n - 1));
    }
  }

  lemma NoRowsAtAll()
    ensures InvalidRows([]) + Numbers(ValidRows([])) == OneTo(0)
  {
  }

  lemma OneToLast(n: nat)
    requires n > 0
    ensures OneTo(n) == OneTo(n - 1) + [n]
  {
  }

  lemma LastRow(parsed: seq<Option<Row>>)
    requires parsed != []
    ensures var init, n := parsed[..|parsed| - 1], |parsed|;
            if parsed[n - 1].Some?
            then InvalidRows(parsed) == InvalidRows(init)
              && Numbers(ValidRows(parsed)) == Numbers(ValidRows(init)) + [n]
            else InvalidRows(parsed) == InvalidRows(init) + [n] && ValidRows(parsed) == ValidRows(init)
  {
    hide Numbers;
    var n := |parsed|;
    if parsed[n - 1].Some? {
      var valid := ValidRows(parsed);
      NumbersLast(valid);
      assert valid[..|valid| - 1] == ValidRows(parsed[..n - 1]);
    }
  }

  lemma AddToEither(a: seq<nat>, b: seq<nat>, n: nat, all: seq<nat>)
    requires multiset(a + b) == multiset(all)
    ensures multiset(a + (b + [n])) == multiset(all + [n]) && multiset((a + [n]) + b) == multiset(all + [n])
  {
    assert a + (b + [n]) == (a + b) + [n];
  }

  function Import(rules: Rules, opts: Options, s: State, parsed: seq<Option<Row>>, db: nat -> World): Progress {
    RunRows(rules, opts, Progress(s, TallyInvalid(InvalidRows(parsed))), ValidRows(parsed), db)
  }

  /** Every row of the file is accounted for exactly once, whatever happens to it. */
  lemma EveryRowAccounted(rules: Rules, opts: Options, s: State, parsed: seq<Option<Row>>, db: nat -> World)
    ensures var t := Import(rules, opts, s, parsed, db).tally;
            && Balanced(t) && t.created + t.updated + t.ignored + t.failed == |parsed|
            && multiset(Numbers(t.results)) == multiset(OneTo(|parsed|))
  {
    InvalidBalanced(InvalidRows(parsed));
    var first := TallyInvalid(InvalidRows(parsed));
    RunBalanced(rules, opts, Progress(s, first), ValidRows(parsed), db);
    EveryRowOnce(parsed);
    hide RunRows, TallyInvalid;
    var t := Import(rules, opts, s, parsed, db).tally;
    assert |multiset(Numbers(t.results))| == |t.results| && |multiset(OneTo(|parsed|))| == |parsed|;
  }

  ghost predicate AllAvoid(rows: seq<(nat, Row)>, db: nat -> World, id: string) {
    forall item | item in rows :: Avoids(db(item.0), id)
  }

  /** Through every later run of rows, even with a database that works again, the forgotten client stays in the index
      and out of the table, gets no opportunity, and every row that resolves to it is reported as failed. */
  lemma {:induction false} ForgottenClientBlocksRows(rules: Rules, opts: Options, p: Progress, rows: seq<(nat, Row)>,
                                                    db: nat -> World, c: Candidate)
    requires !opts.dryRun && Forgotten(p.state, c) && AllAvoid(rows, db, c.id)
    ensures Forgotten(RunRows(rules, opts, p, rows, db).state, c) && AllBlocked(rules, opts, p, rows, db, c)
  {
    if rows != [] {
      hide Forgotten, AllBlocked, Turn, AllAvoid;
      InitAvoids(rows, db, c.id);
      ForgottenClientBlocksRows(rules, opts, p, rows[..|rows| - 1], db, c);
      LastTurnBlocks(rules, opts, p, rows, db, c);
    }
  }

  lemma InitAvoids(rows: seq<(nat, Row)>, db: nat -> World, id: string)
    requires rows != [] && AllAvoid(rows, db, id)
    ensures AllAvoid(rows[..|rows| - 1], db, id) && Avoids(db(rows[|rows| - 1].0), id)
  {
    hide Avoids;
  }

  lemma LastTurnBlocks(rules: Rules, opts: Options, p: Progress, rows: seq<(nat, Row)>, db: nat -> World, c: Candidate)
    requires rows != [] && !opts.dryRun && Avoids(db(rows[|rows| - 1].0), c.id)
    requires Forgotten(RunRows(rules, opts, p, rows[..|rows| - 1], db).state, c)
    requires AllBlocked(rules, opts, p, rows[..|rows| - 1], db, c)
    ensures Forgotten(RunRows(rules, opts, p, rows, db).state, c) && AllBlocked(rules, opts, p, rows, db, c)
  {
    hide RunRows, Avoids, Turn, Forgotten, Blocked;
    var n := |rows| - 1;
    var init := rows[..n];
    var before, after := RunRows(rules, opts, p, init, db), RunRows(rules, opts, p, rows, db);
    TurnKeepsForgotten(rules, opts, before, rows[n], db, c);
    LastTurn(rules, opts, p, rows, db);
    forall i | 0 <= i < |rows| ensures BlockedAt(rules, opts, p, rows, db, c, i) {
      if i < n {
        assert BlockedAt(rules, opts, p, init, db, c, i);
        assert init[..i] == rows[..i];
        StaysBlocked(rules, RunRows(rules, opts, p, rows[..i], db).state, rows[i], c, before.tally, after.tally);
      }
    }
  }

  lemma StaysBlocked(rules: Rules, s: State, item: (nat, Row), c: Candidate, t: Tally, u: Tally)
    requires Blocked(rules, s, item, c, t) && t.results <= u.results
    ensures Blocked(rules, s, item, c, u)
  {
    hide Problem, Resolve, InputOf;
  }

  lemma LastTurn(rules: Rules, opts: Options, p: Progress, rows: seq<(nat, Row)>, db: nat -> World)
    requires rows != []
    ensures var n := |rows| - 1;
            RunRows(rules, opts, p, rows, db) == Turn(rules, opts, RunRows(rules, opts, p, rows[..n], db), rows[n], db)
  {
  }

  lemma TurnKeepsForgotten(rules: Rules, opts: Options, p: Progress, item: (nat, Row), db: nat -> World, c: Candidate)
    requires !opts.dryRun && Forgotten(p.state, c) && Avoids(db(item.0), c.id)
    ensures var q := Turn(rules, opts, p, item, db);
            Forgotten(q.state, c) && p.tally.results <= q.tally.results && Blocked(rules, p.state, item, c, q.tally)
  {
    hide RowStep, Forgotten, Avoids, Resolve, InputOf, Problem, Recorded;
    RowKeepsForgotten(rules, opts, p.state, item.1, db(item.0), c);
    RecordedAppends(p.tally, item.0, RowStep(rules, opts, p.state, item.1, db(item.0)).1);
    assert (item.0, RowStep(rules, opts, p.state, item.1, db(item.0)).1)
           in p.tally.results + [(item.0, RowStep(rules, opts, p.state, item.1, db(item.0)).1)];
  }

  ghost predicate BlockedAt(rules: Rules, opts: Options, p: Progress, rows: seq<(nat, Row)>, db: nat -> World,
                            c: Candidate, i: int)
    requires 0 <= i < |rows|
  {
    Blocked(rules, RunRows(rules, opts, p, rows[..i], db).state, rows[i], c, RunRows(rules, opts, p, rows, db).tally)
  }

  ghost predicate AllBlocked(rules: Rules, opts: Options, p: Progress, rows: seq<(nat, Row)>, db: nat -> World,
                             c: Candidate) {
    forall i | 0 <= i < |rows| :: BlockedAt(rules, opts, p, rows, db, c, i)
  }

  /** If the row, at that state, has no problem of its own and resolves to `c`, its result is a failure. */
  predicate Blocked(rules: Rules, s: State, item: (nat, Row), c: Candidate, tally: Tally) {
    Problem(item.1).None? && Resolve(rules, InputOf(item.1), s.index.list) == Resolved(c) ==>
      (item.0, Failed(UnexpectedError)) in tally.results
  }

  lemma RecordedAppends(t: Tally, n: nat, o: Outcome)
    ensures Recorded(t, n, o).results == t.results + [(n, o)]
  {
  }

  /** Over a whole import the index stays coherent and the opportunity table grows by the number reported. */
  lemma {:induction false} RunKeepsIndex(rules: Rules, opts: Options, p: Progress, rows: seq<(nat, Row)>,
                                         db: nat -> World)
    requires Coherent(p.state.index)
    ensures var q := RunRows(rules, opts, p, rows, db);
            && Coherent(q.state.index)
            && |q.state.opportunities| - |p.state.opportunities|
               == (if opts.dryRun then 0 else q.tally.created - p.tally.created)
            && (opts.dryRun ==> q.state.clients == p.state.clients && q.state.opportunities == p.state.opportunities)
  {
    if rows != [] {
      var init, last := rows[..|rows| - 1], rows[|rows| - 1];
      RunKeepsIndex(rules, opts, p, init, db);
      TurnKeepsIndex(rules, opts, RunRows(rules, opts, p, init, db), last, db);
      hide Coherent, Turn;
    }
  }

  lemma TurnKeepsIndex(rules: Rules, opts: Options, p: Progress, item: (nat, Row), db: nat -> World)
    requires Coherent(p.state.index)
    ensures var q := Turn(rules, opts, p, item, db);
            && Coherent(q.state.index)
            && |q.state.opportunities| - |p.state.opportunities|
               == (if opts.dryRun then 0 else q.tally.created - p.tally.created)
            && (opts.dryRun ==> q.state.clients == p.state.clients && q.state.opportunities == p.state.opportunities)
  {
    RowKeepsIndex(rules, opts, p.state, item.1, db(item.0));
    RowAddsWhatItReports(rules, opts, p.state, item.1, db(item.0));
    hide Coherent, RowStep;
  }

  // ----- The import itself -----

  const BATCH_SIZE := 50

  /** The index after the clients found at the start have been put in. */
  function Loaded(rules: Rules, clients: seq<Client>): (x: Index)
    ensures Coherent(x)
  {
    if clients == [] then EmptyIndex()
    else
      var x := Loaded(rules, clients[..|clients| - 1]);
      var c := ToCandidate(rules, clients[|clients| - 1]);
      UpsertKeepsCoherent(x, c);
      Upserted(x, c)
  }

  class Importer {
    const rules: Rules
    const opts: Options
    var clientsById: map<string, Candidate>
    var clientCandidates: seq<Candidate>
    var dedupeCandidates: map<DealKey, seq<Opportunity>>
    var previewClients: map<string, Candidate>
    var clients: set<string>
    var opportunities: seq<Opportunity>

    constructor (rules: Rules, opts: Options, clients: set<string>, opportunities: seq<Opportunity>)
      ensures this.rules == rules && this.opts == opts
      ensures Now() == State(EmptyIndex(), map[], map[], clients, opportunities)
    {
      this.rules, this.opts, this.clients, this.opportunities := rules, opts, clients, opportunities;
      clientsById, clientCandidates, dedupeCandidates, previewClients := map[], [], map[], map[];
    }

    function Now(): State
      reads this
    {
      State(Index(clientsById, clientCandidates), dedupeCandidates, previewClients, clients, opportunities)
    }

    /** `upsertClientCandidate`: replaces the first entry with the id, of which there is only one. */
    method Upsert(candidate: Candidate)
      requires Coherent(Now().index)
      modifies this`clientsById, this`clientCandidates
      ensures Now().index == Upserted(old(Now()).index, candidate) && Coherent(Now().index)
    {
      UpsertKeepsCoherent(Now().index, candidate);
      if candidate.id in clientsById {
        clientsById := clientsById[candidate.id := candidate];
        var i := 0;
        while i < |clientCandidates| && clientCandidates[i].id != candidate.id
          invariant 0 <= i <= |clientCandidates|
          invariant forall j | 0 <= j < i :: clientCandidates[j].id != candidate.id
        {
          i := i + 1;
        }
        if i < |clientCandidates| {
          clientCandidates := clientCandidates[i := candidate];
        }
      } else {
        clientsById := clientsById[candidate.id := candidate];
        clientCandidates := clientCandidates + [candidate];
      }
    }

    method Load(found: seq<Client>)
      requires Now().index == EmptyIndex()
      modifies this`clientsById, this`clientCandidates
      ensures Now().index == Loaded(rules, found)
    {
      hide Coherent, Upserted;
      for i := 0 to |found|
        invariant Now().index == Loaded(rules, found[..i])
      {
        assert found[..i + 1][..i] == found[..i];
        Upsert(ToCandidate(rules, found[i]));
      }
      assert found[..|found|] == found;
    }

    method LocateClient(row: Row, w: World) returns (located: Located)
      requires Coherent(Now().index)
      modifies this
      ensures (Now(), located) == Locate(rules, opts, old(Now()), row, w) && Coherent(Now().index)
    {
      hide Resolve, Coherent, Upserted, InputOf, ToCandidate, PreviewKey, PreviewClient, ImportedClient;
      match Resolve(rules, InputOf(row), clientCandidates) {
        case Resolved(c) => return Found(c);
        case Ambiguous(_) => return Several;
        case NotFound =>
      }
      if w.throwsAt == Some(AtLookup) {
        return LookupThrew;
      }
      if w.existing.Some? {
        Upsert(ToCandidate(rules, w.existing.value));
        return Found(ToCandidate(rules, w.existing.value));
      }
      if !opts.createClientIfMissing {
        return Nobody;
      }
      if !opts.dryRun {
        if w.throwsAt == Some(AtClientCreate) {
          return LookupThrew;
        }
        var c := ImportedClient(rules, row, w.newClientId);
        clients := clients + {c.id};
        Upsert(c);
        return Found(c);
      }
      var k := PreviewKey(rules, row);
      if k !in previewClients {
        var c := PreviewClient(rules, row, |previewClients| + 1);
        previewClients := previewClients[k := c];
        Upsert(c);
      }
      located := Found(previewClients[k]);
    }

    method WriteOpportunity(row: Row, k: DealKey, w: World) returns (written: Written)
      modifies this`dedupeCandidates, this`opportunities
      ensures (Now(), written) == Write(rules, opts, old(Now()), row, k, w)
    {
      hide Newest, Filter, Refreshed;
      var duplicate: Option<Opportunity> := None;
      if opts.dedupe {
        if k !in dedupeCandidates {
          if w.throwsAt == Some(AtDedupe) {
            return WriteThrew;
          }
          dedupeCandidates := dedupeCandidates[k := Filter(opportunities, Comparable(opts, k))];
        }
        duplicate := Newest(rules, row.title, dedupeCandidates[k]);
      }
      if duplicate.Some? && opts.mode == Skip {
        return Result(Ignored(Duplicate));
      }
      if !opts.dryRun && w.throwsAt == Some(AtWrite) {
        return WriteThrew;
      }
      if duplicate.Some? {
        if !opts.dryRun {
          opportunities := Refreshed(opts, opportunities, duplicate.value.id, k, row, w.now);
        }
        return Result(Updated);
      }
      if !opts.dryRun {
        if k.clientId !in clients {
          return WriteThrew;
        }
        opportunities := opportunities + [Imported(row, k, w.newOpportunityId)];
      }
      written := Result(Created);
    }

    /** One turn of the row loop, with its transaction and its `catch`. */
    method ImportRow(row: Row, w: World) returns (outcome: Outcome)
      requires Coherent(Now().index)
      modifies this
      ensures (Now(), outcome) == RowStep(rules, opts, old(Now()), row, w) && Coherent(Now().index)
    {
      hide Locate, Write, Coherent;
      ghost var start := Now();
      if Problem(row).Some? {
        return Failed(Problem(row).value);
      }
      var clientsBefore, opportunitiesBefore := clients, opportunities;
      var located := LocateClient(row, w);
      ghost var (t, l) := Locate(rules, opts, start, row, w);
      var written := WriteThrew;
      match located {
        case Found(c) =>
          written := WriteOpportunity(row, KeyOf(row, c), w);
          WriteKeepsMemory(rules, opts, t, row, KeyOf(row, c), w);
        case Several => written := Result(Failed(ClientAmbiguous));
        case Nobody => written := Result(Failed(ClientMissing));
        case LookupThrew =>
      }
      if written.WriteThrew? || w.throwsAt == Some(AtCommit) {
        clients, opportunities := clientsBefore, opportunitiesBefore;
        return Failed(UnexpectedError);
      }
      outcome := written.outcome;
    }

    /** `processOpportunityImport`: invalid rows first, then the valid ones in batches. */
    method Process(parsed: seq<Option<Row>>, db: nat -> World) returns (tally: Tally)
      requires Coherent(Now().index)
      modifies this
      ensures Progress(Now(), tally) == Import(rules, opts, old(Now()), parsed, db) && Coherent(Now().index)
    {
      hide Coherent, RowStep, Recorded;
      tally := NoRows();
      var invalid, valid := InvalidRows(parsed), ValidRows(parsed);
      for i := 0 to |invalid|
        invariant tally == TallyInvalid(invalid[..i]) && Now() == old(Now())
      {
        assert invalid[..i + 1][..i] == invalid[..i];
        tally := Recorded(tally, invalid[i], Failed(InvalidRow));
      }
      assert invalid[..|invalid|] == invalid;
      ghost var start := Progress(old(Now()), tally);
      var batchStart := 0;
      while batchStart < |valid|
        invariant 0 <= batchStart && Coherent(Now().index)
        invariant Progress(Now(), tally) == RunRows(rules, opts, start, valid[..Min(batchStart, |valid|)], db)
      {
        var batchEnd := Min(batchStart + BATCH_SIZE, |valid|);
        for i := batchStart to batchEnd
          invariant Coherent(Now().index)
          invariant Progress(Now(), tally) == RunRows(rules, opts, start, valid[..i], db)
        {
          assert valid[..i + 1][..i] == valid[..i];
          var outcome := ImportRow(valid[i].1, db(valid[i].0));
          tally := Recorded(tally, valid[i].0, outcome);
        }
        batchStart := batchStart + BATCH_SIZE;
      }
      assert valid[..|valid|] == valid;
    }
  }

  function Min(a: int, b: int): int {
    if a < b then a else b
  }
}
