/** The client register (`apps/api/src/routes/crudRoutes.ts`, `apps/api/src/services/clientCodeAuditService.ts`):
    every route that writes clients, the duplicate check they share and the audit trail of ERP codes. */
module ClientRegistry {
  import opened Text

  datatype Client = Client(code: Option<string>, fantasyName: Option<string>, name: string, city: string, state: string,
                           region: string, cnpj: Option<string>, nameNormalized: Option<string>,
                           cityNormalized: Option<string>, cnpjNormalized: Option<string>,
                           lastPurchaseDate: Option<int>, owner: string, archived: bool)

  type Table = map<string, Client>

  /** A row of the audit table: the client's code went from `old` to `new`. */
  datatype Audit = Audit(clientId: string, oldValue: Option<string>, newValue: Option<string>)

  datatype Store = Store(clients: Table, audits: seq<Audit>)

  /** `normalizeText`, `normalizeState` and `toLowerCase`. */
  datatype Rules = Rules(text: string -> string, state: string -> string, lower: string -> string)

  // ----- The audit service -----

  /** `normalizeAuditedCode`. */
  function AuditedCode(code: Option<string>): Option<string> {
    var t := Trim(TextOf(code));
    if t == "" then None else Some(t)
  }

  /** `recordClientCodeChange`. */
  function Recorded(audits: seq<Audit>, id: string, before: Option<string>, after: Option<string>): seq<Audit> {
    if AuditedCode(before) == AuditedCode(after) then audits
    else audits + [Audit(id, AuditedCode(before), AuditedCode(after))]
  }

  /** The code a client has after its audit rows are replayed from nothing. */
  function Replay(audits: seq<Audit>, id: string): Option<string> {
    if audits == [] then None
    else
      var last := audits[|audits| - 1];
      if last.clientId == id then last.newValue else Replay(audits[..|audits| - 1], id)
  }

  /** Every row starts from what the rows before it led to, and changes it. */
  predicate RowChained(audits: seq<Audit>, i: nat)
    requires i < |audits|
  {
    audits[i].oldValue == Replay(audits[..i], audits[i].clientId) && audits[i].oldValue != audits[i].newValue
  }

  ghost predicate Chained(audits: seq<Audit>) {
    forall i | 0 <= i < |audits| :: RowChained(audits, i)
  }

  predicate CodeTold(s: Store, id: string) {
    id in s.clients ==> Replay(s.audits, id) == AuditedCode(s.clients[id].code)
  }

  /** The trail tells every client's code, and speaks of nobody else. */
  ghost predicate Told(s: Store) {
    && Chained(s.audits)
    && (forall id :: CodeTold(s, id))
    && (forall i | 0 <= i < |s.audits| :: s.audits[i].clientId in s.clients)
  }

  lemma RecordedReplays(audits: seq<Audit>, id: string, before: Option<string>, after: Option<string>)
    requires Chained(audits) && Replay(audits, id) == AuditedCode(before)
    ensures var r := Recorded(audits, id, before, after);
            && Chained(r) && Replay(r, id) == AuditedCode(after)
            && forall other | other != id :: Replay(r, other) == Replay(audits, other)
  {
    hide AuditedCode;
    var r := Recorded(audits, id, before, after);
    if AuditedCode(before) != AuditedCode(after) {
      assert r[..|audits|] == audits;
      forall i | 0 <= i < |r| ensures RowChained(r, i) {
        if i < |audits| {
          assert RowChained(audits, i);
          assert r[..i] == audits[..i];
        }
      }
    }
  }

  lemma {:induction false} NoRowsNoCode(audits: seq<Audit>, id: string)
    requires forall i | 0 <= i < |audits| :: audits[i].clientId != id
    ensures Replay(audits, id) == None
  {
    if audits != [] {
      NoRowsNoCode(audits[..|audits| - 1], id);
    }
  }

  // ----- The duplicate check -----

  datatype Candidate = Candidate(name: string, city: string, state: string, cnpj: Option<string>, code: Option<string>)

  datatype Normal = Normal(code: string, name: string, city: string, state: string, cnpj: string)

  function Normalized(rules: Rules, c: Candidate): Normal {
    Normal(Trim(TextOf(c.code)), rules.text(c.name), rules.text(c.city), rules.state(c.state), Digits(TextOf(c.cnpj)))
  }

  predicate InScope(scope: Option<string>, c: Client) {
    scope.None? || c.owner == scope.value
  }

  predicate Active(t: Table, ignore: Option<string>, id: string) {
    id in t && !t[id].archived && ignore != Some(id)
  }

  predicate SameCnpj(n: Normal, candidate: Candidate, c: Client) {
    c.cnpjNormalized == Some(n.cnpj) || (candidate.cnpj.Some? && candidate.cnpj.value != "" && c.cnpj == candidate.cnpj)
  }

  predicate SameIdentity(rules: Rules, n: Normal, c: Client) {
    && TextOr(c.nameNormalized, rules.text(c.name)) == n.name
    && TextOr(c.cityNormalized, rules.text(c.city)) == n.city
    && rules.state(c.state) == n.state
  }

  datatype Match = ByCode | ByCnpj | ByIdentity

  /** `findDuplicateClient`: codes and documents are compared across all sellers, names within the caller's scope. */
  function FindDuplicate(rules: Rules, t: Table, candidate: Candidate, scope: Option<string>,
                         ignore: Option<string>): Option<Match> {
    var n := Normalized(rules, candidate);
    if n.code != "" && exists id | id in t :: Active(t, ignore, id) && t[id].code == Some(n.code) then Some(ByCode)
    else if n.cnpj != "" && exists id | id in t :: Active(t, ignore, id) && SameCnpj(n, candidate, t[id])
      then Some(ByCnpj)
    else if exists id | id in t :: Active(t, ignore, id) && InScope(scope, t[id]) && SameIdentity(rules, n, t[id]) then
      Some(ByIdentity)
    else None
  }

  // ----- The routes as functions -----

  datatype NewClient = NewClient(name: string, city: string, state: string, region: string, fantasyName: Option<string>,
                                 code: Option<string>, cnpj: Option<string>, lastPurchaseDate: Option<int>,
                                   owner: string)

  /** What an edit names; `None` leaves a field alone. */
  datatype Edit = Edit(name: Option<string>, city: Option<string>, state: Option<string>, region: Option<string>,
                       fantasyName: Option<string>, code: Option<string>, cnpj: Option<string>, owner: Option<string>)

  datatype Reply = Done(status: nat) | Refused(status: nat)

  function OrKeep<T>(a: Option<T>, b: T): T {
    if a.Some? then a.value else b
  }

  function OrKeepOption<T>(a: Option<T>, b: Option<T>): Option<T> {
    if a.Some? then a else b
  }

  /** `value || null`. */
  function OrNull(s: string): Option<string> {
    if s == "" then None else Some(s)
  }

  function CandidateOf(p: NewClient): Candidate {
    Candidate(p.name, p.city, p.state, p.cnpj, p.code)
  }

  /** `withClientNormalizedFields` on a payload for `create`. */
  function Row(rules: Rules, p: NewClient): Client {
    var n := Normalized(rules, CandidateOf(p));
    Client(p.code, p.fantasyName, p.name, p.city, n.state, p.region, p.cnpj, Some(n.name), Some(n.city), OrNull(n.cnpj),
           p.lastPurchaseDate, p.owner, false)
  }

  /** The payload as the duplicate check sees it: its state is already normalised. */
  function Prepared(rules: Rules, p: NewClient): NewClient {
    p.(state := rules.state(p.state))
  }

  /** Creating a client, with or without an audit row. The database may refuse; it always does for a used key. */
  function CreateStep(rules: Rules, s: Store, id: string, p: NewClient, scope: Option<string>,
                      refused: bool): (Store, Reply) {
    if FindDuplicate(rules, s.clients, CandidateOf(Prepared(rules, p)), scope, None).Some? then (s, Refused(409))
    else if refused || id in s.clients then (s, Refused(409))
    else (Store(s.clients[id := Row(rules, p)], Recorded(s.audits, id, None, p.code)), Done(201))
  }

  function Merged(c: Client, e: Edit): Candidate {
    Candidate(OrKeep(e.name, c.name), OrKeep(e.city, c.city), OrKeep(e.state, c.state), OrKeepOption(e.cnpj, c.cnpj),
              OrKeepOption(e.code, c.code))
  }

  function Edited(rules: Rules, c: Client, e: Edit): Client {
    var n := Normalized(rules, Merged(c, e));
    c.(name := OrKeep(e.name, c.name), city := OrKeep(e.city, c.city), region := OrKeep(e.region, c.region),
       fantasyName := OrKeepOption(e.fantasyName, c.fantasyName), code := OrKeepOption(e.code, c.code),
       cnpj := OrKeepOption(e.cnpj, c.cnpj), owner := OrKeep(e.owner, c.owner),
       state := n.state, nameNormalized := Some(n.name), cityNormalized := Some(n.city),
         cnpjNormalized := OrNull(n.cnpj))
  }

  predicate Forbidden(scope: Option<string>, c: Client) {
    scope.Some? && c.owner != scope.value
  }

  function UpdateStep(rules: Rules, s: Store, id: string, e: Edit, scope: Option<string>,
                      refused: bool): (Store, Reply) {
    if id !in s.clients then (s, Refused(404))
    else
      var current := s.clients[id];
      if Forbidden(scope, current) then (s, Refused(403))
      else if FindDuplicate(rules, s.clients, Merged(current, e), scope, Some(id)).Some? then (s, Refused(409))
      else if refused then (s, Refused(409))
      else
        var changed := Edited(rules, current, e);
        (Store(s.clients[id := changed], Recorded(s.audits, id, current.code, changed.code)), Done(200))
  }

  /** A company is a client with a placeholder city; neither route touches the code. */
  function CompanyPayload(name: string, cnpj: Option<string>, region: string, owner: string): NewClient {
    NewClient(name, "Não informado", "NI", region, None, None, cnpj, None, owner)
  }

  function CreateCompanyStep(rules: Rules, s: Store, id: string, p: NewClient, scope: Option<string>,
                             refused: bool): (Store, Reply) {
    if FindDuplicate(rules, s.clients, CandidateOf(Prepared(rules, p)), scope, None).Some? then (s, Refused(409))
    else if refused || id in s.clients then (s, Refused(409))
    else (s.(clients := s.clients[id := Row(rules, p)]), Done(201))
  }

  function CompanyEdited(rules: Rules, c: Client, name: Option<string>, cnpj: Option<string>): Client {
    var n := Normalized(rules, Candidate(OrKeep(name, c.name), c.city, c.state, OrKeepOption(cnpj, c.cnpj), c.code));
    c.(name := if name.Some? && name.value != "" then name.value else c.name, cnpj := OrKeepOption(cnpj, c.cnpj),
       state := n.state, nameNormalized := Some(n.name), cityNormalized := Some(n.city),
         cnpjNormalized := OrNull(n.cnpj))
  }

  function UpdateCompanyStep(rules: Rules, s: Store, id: string, name: Option<string>, cnpj: Option<string>,
                             scope: Option<string>, refused: bool): (Store, Reply)
  {
    if id !in s.clients then (s, Refused(404))
    else
      var current := s.clients[id];
      var candidate :=
        Candidate(OrKeep(name, current.name), current.city, current.state, OrKeepOption(cnpj, current.cnpj),
                  current.code);
      if FindDuplicate(rules, s.clients, candidate, scope, Some(id)).Some? || refused then (s, Refused(409))
      else (s.(clients := s.clients[id := CompanyEdited(rules, current, name, cnpj)]), Done(200))
  }

  /** The client an opportunity import creates by name: nothing is checked and nothing normalised. */
  function ImportedByName(name: string, owner: string): Client {
    Client(None, None, name, "N/A", "NA", "Importação", None, None, None, None, None, owner, false)
  }

  function AutoCreateStep(s: Store, id: string, name: string, owner: string, refused: bool): (Store, Reply) {
    if refused || id in s.clients then (s, Refused(500))
      else (s.(clients := s.clients[id := ImportedByName(name, owner)]), Done(201))
  }

  /** Audit rows restrict the deletion of their client; other tables may refuse too. */
  predicate Audited(audits: seq<Audit>, id: string) {
    exists a | a in audits :: a.clientId == id
  }

  function DeleteStep(s: Store, id: string, scope: Option<string>, refused: bool): (Store, Reply) {
    if id !in s.clients then (s, Refused(404))
    else if Forbidden(scope, s.clients[id]) then (s, Refused(403))
    else if Audited(s.audits, id) || refused then (s, Refused(500))
    else (s.(clients := s.clients - {id}), Done(204))
  }

  function Suffixed(text: Option<string>, suffix: string): Option<string> {
    if text.Some? && text.value != "" then Some(text.value + suffix) else None
  }

  function MergedCode(code: Option<string>, stamp: string): Option<string> {
    Suffixed(code, "__MERGED__" + stamp)
  }

  function MergedAway(c: Client, primary: string, stamp: string): Client {
    c.(code := MergedCode(c.code, stamp), cnpjNormalized := None,
       cnpj := Suffixed(c.cnpj, " [MERGED INTO " + primary + "]"),
       name := "[ARQUIVADO] " + c.name, archived := true)
  }

  /** One duplicate of a manual merge. */
  function MergeOne(s: Store, primary: string, id: string, stamp: string): Store
    requires id in s.clients
  {
    var c := MergedAway(s.clients[id], primary, stamp);
    Store(s.clients[id := c], Recorded(s.audits, id, s.clients[id].code, c.code))
  }

  function MergeAll(s: Store, primary: string, ids: seq<string>, stamp: string): (t: Store)
    requires forall id | id in ids :: id in s.clients
    ensures t.clients.Keys == s.clients.Keys
  {
    if ids == [] then s
    else
      assert ids[|ids| - 1] in ids;
      MergeOne(MergeAll(s, primary, ids[..|ids| - 1], stamp), primary, ids[|ids| - 1], stamp)
  }

  /** `Array.from(new Set(ids.filter((id) => id !== primary)))`. */
  function Distinct(ids: seq<string>, primary: string): (r: seq<string>)
    ensures forall id :: id in r <==> id in ids && id != primary
    ensures forall i, j | 0 <= i < j < |r| :: r[i] != r[j]
  {
    if ids == [] then []
    else
      var r := Distinct(ids[..|ids| - 1], primary);
      var last := ids[|ids| - 1];
      if last == primary || last in r then r else r + [last]
  }

  function MergeStep(s: Store, primary: string, duplicates: seq<string>, stamp: string, refused: bool): (Store, Reply) {
    var ids := Distinct(duplicates, primary);
    if ids == [] then (s, Refused(400))
    else if primary !in s.clients || exists id | id in ids :: id !in s.clients then (s, Refused(404))
    else if refused then (s, Refused(500))
    else (MergeAll(s, primary, ids, stamp), Done(200))
  }

  // ----- The client import -----

  /** A client as the import remembers it. Until the import itself has written the client, only the columns of
      the opening query are there (`full` is false): not the region, not the last purchase. */
  datatype Copy = Copy(id: string, client: Client, full: bool)

  datatype ImportRow = Bad | Skipped | Payload(p: NewClient)

  datatype RowResult = Imported | Updated | Ignored | Conflict

  /** What the database does for one row: the key it hands out, and whether it refuses the write. */
  datatype RowEnv = RowEnv(newId: string, refused: bool)

  datatype Importing = Importing(store: Store, memory: seq<Copy>)

  predicate Remembers(memory: seq<Copy>, id: string) {
    exists c | c in memory :: c.id == id
  }

  /** The active clients in scope, in the order the database lists them. */
  function Loaded(t: Table, order: seq<string>, scope: Option<string>): seq<Copy> {
    if order == [] then []
    else
      var r, id := Loaded(t, order[..|order| - 1], scope), order[|order| - 1];
      if Active(t, None, id) && InScope(scope, t[id]) && !Remembers(r, id) then r + [Copy(id, t[id], false)] else r
  }

  function CnpjKey(): Copy -> string {
    (c: Copy) => Digits(TextOf(c.client.cnpj))
  }

  function CodeKey(rules: Rules): Copy -> string {
    (c: Copy) => rules.lower(Trim(TextOf(c.client.code)))
  }

  function Indexed(m: map<string, Copy>, key: Copy -> string, c: Copy): map<string, Copy> {
    if key(c) != "" then m[key(c) := c] else m
  }

  /** The map an index holds after every remembered client was put in: the last one wins. */
  function IndexBy(memory: seq<Copy>, key: Copy -> string): map<string, Copy> {
    if memory == [] then map[]
    else
      Indexed(IndexBy(memory[..|memory| - 1], key), key, memory[|memory| - 1])
  }

  function FindExisting(rules: Rules, byCnpj: map<string, Copy>, byCode: map<string, Copy>,
                        p: NewClient): Option<Copy> {
    var cnpj, code := Digits(TextOf(p.cnpj)), rules.lower(Trim(TextOf(p.code)));
    if cnpj != "" && cnpj in byCnpj then Some(byCnpj[cnpj])
    else if code != "" && code in byCode then Some(byCode[code])
    else None
  }

  predicate Meaningful(s: string) {
    Trim(s) != "" && Trim(s) != "-"
  }

  predicate Blank(s: string) {
    Trim(s) == ""
  }

  /** The columns an update of an existing client writes. */
  datatype Fill = Fill(city: Option<string>, state: Option<string>, region: Option<string>, fantasyName: Option<string>,
                       code: Option<string>, lastPurchaseDate: Option<int>)

  function FillOf(copy: Copy, p: NewClient): Fill {
    var c := copy.client;
    Fill(if Meaningful(p.city) && Blank(c.city) then Some(Trim(p.city)) else None,
         if Meaningful(p.state) && Blank(c.state) then Some(Trim(p.state)) else None,
         if Meaningful(p.region) && (!copy.full || Blank(c.region)) then Some(Trim(p.region)) else None,
         if !Blank(TextOf(p.fantasyName)) && Blank(TextOf(c.fantasyName)) then Some(Trim(TextOf(p.fantasyName)))
           else None,
         if !Blank(TextOf(p.code)) && Blank(TextOf(c.code)) then Some(Trim(TextOf(p.code))) else None,
         if !copy.full || c.lastPurchaseDate.None? then p.lastPurchaseDate else None)
  }

  predicate HasChanges(f: Fill) {
    f.city.Some? || f.state.Some? || f.region.Some? || f.fantasyName.Some? || f.code.Some? || f.lastPurchaseDate.Some?
  }

  /** The code is not among what is checked for duplicates. */
  function FilledCandidate(copy: Copy, f: Fill): Candidate {
    Candidate(copy.client.name, OrKeep(f.city, copy.client.city), OrKeep(f.state, copy.client.state), copy.client.cnpj,
              None)
  }

  function Filled(rules: Rules, c: Client, copy: Copy, f: Fill): Client {
    var n := Normalized(rules, FilledCandidate(copy, f));
    c.(city := OrKeep(f.city, c.city), region := OrKeep(f.region, c.region),
       fantasyName := OrKeepOption(f.fantasyName, c.fantasyName), code := OrKeepOption(f.code, c.code),
       lastPurchaseDate := OrKeepOption(f.lastPurchaseDate, c.lastPurchaseDate),
       state := n.state, nameNormalized := Some(n.name), cityNormalized := Some(n.city),
         cnpjNormalized := OrNull(n.cnpj))
  }

  /** `resolveImportCreateData`: texts are trimmed, empty ones dropped. */
  function ImportPayload(p: NewClient): NewClient {
    NewClient(Trim(p.name), Trim(p.city), Trim(p.state), Trim(p.region),
              OrNull(Trim(TextOf(p.fantasyName))), OrNull(Trim(TextOf(p.code))),
              if Meaningful(TextOf(p.cnpj)) then Some(Trim(TextOf(p.cnpj))) else None, p.lastPurchaseDate, p.owner)
  }

  function Relearned(memory: seq<Copy>, c: Copy): (r: seq<Copy>)
    ensures |r| == |memory|
    ensures forall i | 0 <= i < |r| :: r[i] == if memory[i].id == c.id then c else memory[i]
  {
    seq(|memory|, i requires 0 <= i < |memory| => if memory[i].id == c.id then c else memory[i])
  }

  function UpdateRowStep(rules: Rules, st: Importing, copy: Copy, p: NewClient, scope: Option<string>, refused: bool)
    : (Importing, RowResult)
  {
    var s, f := st.store, FillOf(copy, p);
    if !HasChanges(f) then (st, Ignored)
    else if FindDuplicate(rules, s.clients, FilledCandidate(copy, f), scope, Some(copy.id)).Some? then (st, Conflict)
    else if refused || copy.id !in s.clients then (st, Conflict)
    else
      var changed := Filled(rules, s.clients[copy.id], copy, f);
      (Importing(Store(s.clients[copy.id := changed], Recorded(s.audits, copy.id, copy.client.code, changed.code)),
                 Relearned(st.memory, Copy(copy.id, changed, true))),
       Updated)
  }

  function CreateRowStep(rules: Rules, st: Importing, p: NewClient, scope: Option<string>,
                         env: RowEnv): (Importing, RowResult) {
    var (s, reply) := CreateStep(rules, st.store, env.newId, ImportPayload(p), scope, env.refused);
    if reply.Refused? then (st, Conflict)
    else (Importing(s, st.memory + [Copy(env.newId, Row(rules, ImportPayload(p)), true)]), Imported)
  }

  function ImportRowStep(rules: Rules, st: Importing, row: ImportRow, scope: Option<string>,
                         env: RowEnv): (Importing, RowResult) {
    match row
    case Bad => (st, Conflict)
    case Skipped => (st, Ignored)
    case Payload(p) =>
      var found := FindExisting(rules, IndexBy(st.memory, CnpjKey()), IndexBy(st.memory, CodeKey(rules)), p);
      if found.Some? then UpdateRowStep(rules, st, found.value, p, scope, env.refused)
        else CreateRowStep(rules, st, p, scope, env)
  }

  datatype Counts = Counts(created: nat, updated: nat, ignored: nat, conflicts: nat)

  function Counted(c: Counts, r: RowResult): Counts {
    match r
    case Imported => c.(created := c.created + 1)
    case Updated => c.(updated := c.updated + 1)
    case Ignored => c.(ignored := c.ignored + 1)
    case Conflict => c.(conflicts := c.conflicts + 1)
  }

  datatype Imports = Imports(state: Importing, counts: Counts)

  function ImportTurn(rules: Rules, i: Imports, row: ImportRow, scope: Option<string>, env: RowEnv): Imports {
    var (state, result) := ImportRowStep(rules, i.state, row, scope, env);
    Imports(state, Counted(i.counts, result))
  }

  function ImportRows(rules: Rules, i: Imports, rows: seq<ImportRow>, scope: Option<string>,
                      env: nat -> RowEnv): Imports {
    if rows == [] then i
    else
      var n := |rows| - 1;
      ImportTurn(rules, ImportRows(rules, i, rows[..n], scope, env), rows[n], scope, env(n))
  }

  function ImportStart(s: Store, order: seq<string>, scope: Option<string>): Imports {
    Imports(Importing(s, Loaded(s.clients, order, scope)), Counts(0, 0, 0, 0))
  }

  // ----- Runs -----

  datatype Op =
    | Create(id: string, p: NewClient, scope: Option<string>, refused: bool)
    | Update(id: string, e: Edit, scope: Option<string>, refused: bool)
    | CreateCompany(id: string, name: string, cnpj: Option<string>, region: string, owner: string,
                    scope: Option<string>, refused: bool)
    | UpdateCompany(id: string, name_: Option<string>, cnpj_: Option<string>, scope: Option<string>, refused: bool)
    | AutoCreate(id: string, name: string, owner: string, refused: bool)
    | ImportClients(order: seq<string>, rows: seq<ImportRow>, scope: Option<string>, env: nat -> RowEnv)
    | Merge(primary: string, duplicates: seq<string>, stamp: string, refused: bool)
    | Delete(id: string, scope: Option<string>, refused: bool)
    | DeleteCompany(id: string, refused: bool)

  function Step(rules: Rules, s: Store, op: Op): Store {
    match op
    case Create(id, p, scope, refused) => CreateStep(rules, s, id, p, scope, refused).0
    case Update(id, e, scope, refused) => UpdateStep(rules, s, id, e, scope, refused).0
    case CreateCompany(id, name, cnpj, region, owner, scope, refused) =>
      CreateCompanyStep(rules, s, id, CompanyPayload(name, cnpj, region, owner), scope, refused).0
    case UpdateCompany(id, name, cnpj, scope, refused) => UpdateCompanyStep(rules, s, id, name, cnpj, scope, refused).0
    case AutoCreate(id, name, owner, refused) => AutoCreateStep(s, id, name, owner, refused).0
    case ImportClients(order, rows, scope, env) =>
      ImportRows(rules, ImportStart(s, order, scope), rows, scope, env).state.store
    case Merge(primary, duplicates, stamp, refused) => MergeStep(s, primary, duplicates, stamp, refused).0
    case Delete(id, scope, refused) => DeleteStep(s, id, scope, refused).0
    case DeleteCompany(id, refused) => DeleteStep(s, id, None, refused).0
  }

  function Run(rules: Rules, s: Store, ops: seq<Op>): Store {
    if ops == [] then s else Step(rules, Run(rules, s, ops[..|ops| - 1]), ops[|ops| - 1])
  }

  // ----- One active client per document -----

  predicate CnpjApart(a: Client, b: Client) {
    a.archived || b.archived || a.cnpjNormalized.None? || a.cnpjNormalized == Some("")
      || a.cnpjNormalized != b.cnpjNormalized
  }

  ghost predicate CnpjUnique(t: Table) {
    forall i, j | i in t && j in t && i != j :: CnpjApart(t[i], t[j])
  }

  /** `c` may stand under `id`. */
  ghost predicate Admissible(t: Table, id: string, c: Client) {
    forall other | other in t && other != id :: CnpjApart(c, t[other]) && CnpjApart(t[other], c)
  }

  lemma PutKeepsUnique(t: Table, id: string, c: Client)
    requires CnpjUnique(t) && Admissible(t, id, c)
    ensures CnpjUnique(t[id := c])
  {
    hide CnpjApart;
  }

  /** A candidate that passed the check carries a document no other active client has. */
  lemma CheckedIsAdmissible(rules: Rules, t: Table, candidate: Candidate, scope: Option<string>, ignore: Option<string>,
                            id: string, c: Client)
    requires FindDuplicate(rules, t, candidate, scope, ignore).None?
    requires c.cnpjNormalized == OrNull(Normalized(rules, candidate).cnpj)
    requires ignore == Some(id) || (ignore.None? && id !in t)
    ensures Admissible(t, id, c)
  {
    var n := Normalized(rules, candidate);
    hide Normalized, SameIdentity;
    forall other | other in t && other != id ensures CnpjApart(c, t[other]) && CnpjApart(t[other], c) {
      assert n.cnpj == "" || !Active(t, ignore, other) || !SameCnpj(n, candidate, t[other]);
    }
  }

  // ----- Every route keeps both invariants -----

  ghost predicate Good(s: Store) {
    CnpjUnique(s.clients) && Told(s)
  }

  /** Writing one client together with its audit row. */
  lemma PutIsGood(s: Store, id: string, c: Client, before: Option<string>)
    requires Good(s) && Admissible(s.clients, id, c)
    requires if id in s.clients then before == s.clients[id].code else before == None
    ensures Good(Store(s.clients[id := c], Recorded(s.audits, id, before, c.code)))
  {
    PutKeepsUnique(s.clients, id, c);
    PutIsTold(s, id, c, before);
    hide Told, CnpjUnique;
  }

  lemma PutIsTold(s: Store, id: string, c: Client, before: Option<string>)
    requires Told(s)
    requires if id in s.clients then before == s.clients[id].code else before == None
    ensures Told(Store(s.clients[id := c], Recorded(s.audits, id, before, c.code)))
  {
    NoCode();
    hide AuditedCode, Chained, Recorded, Replay;
    CodeSoFar(s, id);
    RecordedReplays(s.audits, id, before, c.code);
    RecordedSpeaksOf(s.audits, id, before, c.code, s.clients.Keys);
    var t := Store(s.clients[id := c], Recorded(s.audits, id, before, c.code));
    assert s.clients.Keys + {id} == t.clients.Keys;
    forall other ensures CodeTold(t, other) {
      assert CodeTold(s, other);
    }
  }

  lemma NoCode()
    ensures AuditedCode(None) == None
  {
  }

  lemma RecordedSpeaksOf(audits: seq<Audit>, id: string, before: Option<string>, after: Option<string>,
                         known: set<string>)
    requires forall i | 0 <= i < |audits| :: audits[i].clientId in known
    ensures var r := Recorded(audits, id, before, after); forall i | 0 <= i < |r| :: r[i].clientId in known + {id}
  {
    hide AuditedCode;
  }

  lemma CodeSoFar(s: Store, id: string)
    requires Told(s)
    ensures Replay(s.audits, id) == if id in s.clients then AuditedCode(s.clients[id].code) else None
  {
    hide AuditedCode;
    if id in s.clients {
      assert CodeTold(s, id);
    } else {
      NoRowsNoCode(s.audits, id);
    }
  }

  /** Writing one client whose code does not change needs no audit row. */
  lemma PutSameCodeIsGood(s: Store, id: string, c: Client)
    requires Good(s) && Admissible(s.clients, id, c)
    requires c.code == if id in s.clients then s.clients[id].code else None
    ensures Good(s.(clients := s.clients[id := c]))
  {
    PutIsGood(s, id, c, c.code);
    assert Recorded(s.audits, id, c.code, c.code) == s.audits;
  }

  lemma ArchivedIsAdmissible(t: Table, id: string, c: Client)
    requires c.archived || c.cnpjNormalized.None?
    ensures Admissible(t, id, c)
  {
  }

  lemma CreateIsGood(rules: Rules, s: Store, id: string, p: NewClient, scope: Option<string>, refused: bool)
    requires Good(s)
    ensures Good(CreateStep(rules, s, id, p, scope, refused).0)
  {
    hide Good, FindDuplicate, Normalized;
    var candidate := CandidateOf(Prepared(rules, p));
    if FindDuplicate(rules, s.clients, candidate, scope, None).None? && id !in s.clients {
      PreparedKeepsCnpj(rules, p);
      CheckedIsAdmissible(rules, s.clients, candidate, scope, None, id, Row(rules, p));
      PutIsGood(s, id, Row(rules, p), None);
    }
  }

  lemma PreparedKeepsCnpj(rules: Rules, p: NewClient)
    ensures Row(rules, p).cnpjNormalized == OrNull(Normalized(rules, CandidateOf(Prepared(rules, p))).cnpj)
  {
  }

  lemma CreateCompanyIsGood(rules: Rules, s: Store, id: string, p: NewClient, scope: Option<string>, refused: bool)
    requires Good(s) && p.code == None
    ensures Good(CreateCompanyStep(rules, s, id, p, scope, refused).0)
  {
    hide Good, FindDuplicate, Normalized;
    var candidate := CandidateOf(Prepared(rules, p));
    if FindDuplicate(rules, s.clients, candidate, scope, None).None? && id !in s.clients {
      PreparedKeepsCnpj(rules, p);
      CheckedIsAdmissible(rules, s.clients, candidate, scope, None, id, Row(rules, p));
      PutSameCodeIsGood(s, id, Row(rules, p));
    }
  }

  lemma UpdateIsGood(rules: Rules, s: Store, id: string, e: Edit, scope: Option<string>, refused: bool)
    requires Good(s)
    ensures Good(UpdateStep(rules, s, id, e, scope, refused).0)
  {
    hide Good, FindDuplicate, Normalized, Recorded, Merged;
    if id in s.clients && FindDuplicate(rules, s.clients, Merged(s.clients[id], e), scope, Some(id)).None? {
      var c := Edited(rules, s.clients[id], e);
      CheckedIsAdmissible(rules, s.clients, Merged(s.clients[id], e), scope, Some(id), id, c);
      PutIsGood(s, id, c, s.clients[id].code);
    }
  }

  lemma UpdateCompanyIsGood(rules: Rules, s: Store, id: string, name: Option<string>, cnpj: Option<string>,
                            scope: Option<string>, refused: bool)
    requires Good(s)
    ensures Good(UpdateCompanyStep(rules, s, id, name, cnpj, scope, refused).0)
  {
    hide Good, FindDuplicate, Normalized;
    if id in s.clients {
      var current := s.clients[id];
      var candidate :=
        Candidate(OrKeep(name, current.name), current.city, current.state, OrKeepOption(cnpj, current.cnpj),
                  current.code);
      if FindDuplicate(rules, s.clients, candidate, scope, Some(id)).None? {
        var c := CompanyEdited(rules, current, name, cnpj);
        CheckedIsAdmissible(rules, s.clients, candidate, scope, Some(id), id, c);
        PutSameCodeIsGood(s, id, c);
      }
    }
  }

  lemma AutoCreateIsGood(s: Store, id: string, name: string, owner: string, refused: bool)
    requires Good(s)
    ensures Good(AutoCreateStep(s, id, name, owner, refused).0)
  {
    var c := ImportedByName(name, owner);
    ArchivedIsAdmissible(s.clients, id, c);
    assert c.code == None;
    hide Good, ImportedByName;
    if id !in s.clients {
      PutSameCodeIsGood(s, id, c);
    }
  }

  lemma MergeOneIsGood(s: Store, primary: string, id: string, stamp: string)
    requires Good(s) && id in s.clients
    ensures Good(MergeOne(s, primary, id, stamp))
  {
    var c := MergedAway(s.clients[id], primary, stamp);
    assert c.archived;
    hide Good, MergedAway;
    ArchivedIsAdmissible(s.clients, id, c);
    PutIsGood(s, id, c, s.clients[id].code);
  }

  lemma {:induction false} MergeAllIsGood(s: Store, primary: string, ids: seq<string>, stamp: string)
    requires Good(s) && forall id | id in ids :: id in s.clients
    ensures Good(MergeAll(s, primary, ids, stamp))
  {
    hide Good;
    if ids != [] {
      MergeAllIsGood(s, primary, ids[..|ids| - 1], stamp);
      assert ids[|ids| - 1] in ids;
      MergeOneIsGood(MergeAll(s, primary, ids[..|ids| - 1], stamp), primary, ids[|ids| - 1], stamp);
    }
  }

  lemma MergeIsGood(s: Store, primary: string, duplicates: seq<string>, stamp: string, refused: bool)
    requires Good(s)
    ensures Good(MergeStep(s, primary, duplicates, stamp, refused).0)
  {
    hide Good, Distinct, MergeAll;
    var ids := Distinct(duplicates, primary);
    if forall id | id in ids :: id in s.clients {
      MergeAllIsGood(s, primary, ids, stamp);
    }
  }

  /** A client with audit rows cannot be deleted, so no audit row loses its client. */
  lemma DeleteIsGood(s: Store, id: string, scope: Option<string>, refused: bool)
    requires Good(s)
    ensures Good(DeleteStep(s, id, scope, refused).0)
  {
    hide AuditedCode, CnpjApart, Chained;
    var t := DeleteStep(s, id, scope, refused).0;
    forall other ensures CodeTold(t, other) {
      assert CodeTold(s, other);
    }
  }

  // ----- The import's memory matches the store -----

  predicate Matches(t: Table, c: Copy) {
    c.id in t && t[c.id] == c.client
  }

  ghost predicate Faithful(st: Importing) {
    forall c | c in st.memory :: Matches(st.store.clients, c)
  }

  lemma {:induction false} LoadedIsFaithful(s: Store, order: seq<string>, scope: Option<string>)
    ensures Faithful(Importing(s, Loaded(s.clients, order, scope)))
  {
    if order != [] {
      LoadedIsFaithful(s, order[..|order| - 1], scope);
    }
  }

  lemma {:induction false} IndexedIsRemembered(memory: seq<Copy>, key: Copy -> string, k: string)
    requires k in IndexBy(memory, key)
    ensures IndexBy(memory, key)[k] in memory && key(IndexBy(memory, key)[k]) == k
  {
    var init, last := memory[..|memory| - 1], memory[|memory| - 1];
    if k in IndexBy(init, key) {
      IndexedIsRemembered(init, key, k);
    }
  }

  /** A match is a remembered client with the row's document or, failing a document match, its code. */
  lemma FoundIsRemembered(rules: Rules, memory: seq<Copy>, p: NewClient)
    ensures var found := FindExisting(rules, IndexBy(memory, CnpjKey()), IndexBy(memory, CodeKey(rules)), p);
            found.Some? ==>
              && found.value in memory
              && (CnpjKey()(found.value) == Digits(TextOf(p.cnpj))
                  || CodeKey(rules)(found.value) == rules.lower(Trim(TextOf(p.code))))
  {
    hide IndexBy, Digits, Trim;
    var cnpj, code := Digits(TextOf(p.cnpj)), rules.lower(Trim(TextOf(p.code)));
    if cnpj in IndexBy(memory, CnpjKey()) {
      IndexedIsRemembered(memory, CnpjKey(), cnpj);
    }
    if code in IndexBy(memory, CodeKey(rules)) {
      IndexedIsRemembered(memory, CodeKey(rules), code);
    }
  }

  lemma UpdateRowIsGood(rules: Rules, st: Importing, copy: Copy, p: NewClient, scope: Option<string>, refused: bool)
    requires Good(st.store) && Faithful(st) && copy in st.memory
    ensures var t := UpdateRowStep(rules, st, copy, p, scope, refused).0; Good(t.store) && Faithful(t)
  {
    hide Good, FindDuplicate, FillOf, Recorded, Normalized;
    var s, f := st.store, FillOf(copy, p);
    assert Matches(s.clients, copy);
    var changed := Filled(rules, s.clients[copy.id], copy, f);
    if FindDuplicate(rules, s.clients, FilledCandidate(copy, f), scope, Some(copy.id)).None? {
      CheckedIsAdmissible(rules, s.clients, FilledCandidate(copy, f), scope, Some(copy.id), copy.id, changed);
      PutIsGood(s, copy.id, changed, copy.client.code);
    }
    RelearnedIsFaithful(st, Copy(copy.id, changed, true), Recorded(s.audits, copy.id, copy.client.code, changed.code));
    hide Faithful, Filled;
  }

  lemma RelearnedIsFaithful(st: Importing, c: Copy, audits: seq<Audit>)
    requires Faithful(st)
    ensures Faithful(Importing(Store(st.store.clients[c.id := c.client], audits), Relearned(st.memory, c)))
  {
    var memory := Relearned(st.memory, c);
    forall d | d in memory ensures Matches(st.store.clients[c.id := c.client], d) {
      var i :| 0 <= i < |memory| && memory[i] == d;
      assert Matches(st.store.clients, st.memory[i]);
    }
  }

  lemma CreateRowIsGood(rules: Rules, st: Importing, p: NewClient, scope: Option<string>, env: RowEnv)
    requires Good(st.store) && Faithful(st)
    ensures var t := CreateRowStep(rules, st, p, scope, env).0; Good(t.store) && Faithful(t)
  {
    CreateIsGood(rules, st.store, env.newId, ImportPayload(p), scope, env.refused);
    hide Good, FindDuplicate, Row, ImportPayload, Recorded, Faithful;
    var (t, r) := CreateRowStep(rules, st, p, scope, env);
    if r == Imported {
      AddedIsFaithful(st, env.newId, Row(rules, ImportPayload(p)), t.store.audits);
    }
  }

  lemma AddedIsFaithful(st: Importing, id: string, c: Client, audits: seq<Audit>)
    requires Faithful(st) && id !in st.store.clients
    ensures Faithful(Importing(Store(st.store.clients[id := c], audits), st.memory + [Copy(id, c, true)]))
  {
    var memory := st.memory + [Copy(id, c, true)];
    forall d | d in memory ensures Matches(st.store.clients[id := c], d) {
      assert d in st.memory ==> Matches(st.store.clients, d);
    }
  }

  lemma ImportRowIsGood(rules: Rules, st: Importing, row: ImportRow, scope: Option<string>, env: RowEnv)
    requires Good(st.store) && Faithful(st)
    ensures var t := ImportRowStep(rules, st, row, scope, env).0; Good(t.store) && Faithful(t)
  {
    hide Good, Faithful, UpdateRowStep, CreateRowStep, FindExisting, IndexBy;
    if row.Payload? {
      FoundIsRemembered(rules, st.memory, row.p);
      var found := FindExisting(rules, IndexBy(st.memory, CnpjKey()), IndexBy(st.memory, CodeKey(rules)), row.p);
      if found.Some? {
        UpdateRowIsGood(rules, st, found.value, row.p, scope, env.refused);
      } else {
        CreateRowIsGood(rules, st, row.p, scope, env);
      }
    }
  }

  /** Through a whole import the memory goes on matching the store, and every row is counted once. */
  lemma {:induction false} ImportIsGood(rules: Rules, i: Imports, rows: seq<ImportRow>, scope: Option<string>,
                                        env: nat -> RowEnv)
    requires Good(i.state.store) && Faithful(i.state)
    ensures var j := ImportRows(rules, i, rows, scope, env);
            && Good(j.state.store) && Faithful(j.state)
            && j.counts.created + j.counts.updated + j.counts.ignored + j.counts.conflicts
               == i.counts.created + i.counts.updated + i.counts.ignored + i.counts.conflicts + |rows|
  {
    hide Good, Faithful, ImportRowStep;
    if rows != [] {
      var n := |rows| - 1;
      ImportIsGood(rules, i, rows[..n], scope, env);
      ImportRowIsGood(rules, ImportRows(rules, i, rows[..n], scope, env).state, rows[n], scope, env(n));
    }
  }

  lemma ImportClientsIsGood(rules: Rules, s: Store, order: seq<string>, rows: seq<ImportRow>, scope: Option<string>,
                            env: nat -> RowEnv)
    requires Good(s)
    ensures Good(ImportRows(rules, ImportStart(s, order, scope), rows, scope, env).state.store)
  {
    LoadedIsFaithful(s, order, scope);
    hide Good, Faithful, ImportRows, Loaded;
    ImportIsGood(rules, ImportStart(s, order, scope), rows, scope, env);
  }

  lemma CompanyHasNoCode(name: string, cnpj: Option<string>, region: string, owner: string)
    ensures CompanyPayload(name, cnpj, region, owner).code == None
  {
  }

  lemma StepIsGood(rules: Rules, s: Store, op: Op)
    requires Good(s)
    ensures Good(Step(rules, s, op))
  {
    hide Good, CreateStep, UpdateStep, CreateCompanyStep, UpdateCompanyStep, AutoCreateStep, ImportRows, ImportStart,
         MergeStep,
         DeleteStep, CompanyPayload;
    match op
    case Create(id, p, scope, refused) => CreateIsGood(rules, s, id, p, scope, refused);
    case Update(id, e, scope, refused) => UpdateIsGood(rules, s, id, e, scope, refused);
    case CreateCompany(id, name, cnpj, region, owner, scope, refused) =>
      CompanyHasNoCode(name, cnpj, region, owner);
      CreateCompanyIsGood(rules, s, id, CompanyPayload(name, cnpj, region, owner), scope, refused);
    case UpdateCompany(id, name, cnpj, scope, refused) => UpdateCompanyIsGood(rules, s, id, name, cnpj, scope, refused);
    case AutoCreate(id, name, owner, refused) => AutoCreateIsGood(s, id, name, owner, refused);
    case ImportClients(order, rows, scope, env) => ImportClientsIsGood(rules, s, order, rows, scope, env);
    case Merge(primary, duplicates, stamp, refused) => MergeIsGood(s, primary, duplicates, stamp, refused);
    case Delete(id, scope, refused) => DeleteIsGood(s, id, scope, refused);
    case DeleteCompany(id, refused) => DeleteIsGood(s, id, None, refused);
  }

  /** Over any run of the routes, starting from no clients, no two active clients share a document and the audit
      trail of every client, replayed from nothing, ends in its code. */
  lemma {:induction false} RunsAreGood(rules: Rules, ops: seq<Op>)
    ensures var s := Run(rules, Store(map[], []), ops);
            && CnpjUnique(s.clients) && Told(s)
            && forall id | id in s.clients :: Replay(s.audits, id) == AuditedCode(s.clients[id].code)
  {
    hide Step, AuditedCode;
    if ops != [] {
      RunsAreGood(rules, ops[..|ops| - 1]);
      StepIsGood(rules, Run(rules, Store(map[], []), ops[..|ops| - 1]), ops[|ops| - 1]);
    }
    var s := Run(rules, Store(map[], []), ops);
    forall id | id in s.clients ensures Replay(s.audits, id) == AuditedCode(s.clients[id].code) {
      assert CodeTold(s, id);
    }
  }

  // ----- What the audit trail protects -----

  lemma {:induction false} MergeAllAppends(s: Store, primary: string, ids: seq<string>, stamp: string)
    requires forall id | id in ids :: id in s.clients
    ensures s.audits <= MergeAll(s, primary, ids, stamp).audits
  {
    if ids != [] {
      MergeAllAppends(s, primary, ids[..|ids| - 1], stamp);
    }
  }

  lemma ImportRowAppends(rules: Rules, st: Importing, row: ImportRow, scope: Option<string>, env: RowEnv)
    ensures st.store.audits <= ImportRowStep(rules, st, row, scope, env).0.store.audits
  {
    hide FindDuplicate, FindExisting, IndexBy, FillOf, AuditedCode, Filled, ImportPayload;
  }

  lemma {:induction false} ImportAppends(rules: Rules, i: Imports, rows: seq<ImportRow>, scope: Option<string>,
                                         env: nat -> RowEnv)
    ensures i.state.store.audits <= ImportRows(rules, i, rows, scope, env).state.store.audits
  {
    hide ImportRowStep;
    if rows != [] {
      var n := |rows| - 1;
      ImportAppends(rules, i, rows[..n], scope, env);
      ImportRowAppends(rules, ImportRows(rules, i, rows[..n], scope, env).state, rows[n], scope, env(n));
    }
  }

  /** The trail only grows. */
  lemma StepAppends(rules: Rules, s: Store, op: Op)
    ensures s.audits <= Step(rules, s, op).audits
  {
    hide FindDuplicate, AuditedCode, Distinct, Row, Edited, CompanyEdited, MergeAll, ImportRows, Loaded, ImportedByName;
    match op
    case ImportClients(order, rows, scope, env) => ImportAppends(rules, ImportStart(s, order, scope), rows, scope, env);
    case Merge(primary, duplicates, stamp, refused) =>
      var ids := Distinct(duplicates, primary);
      if forall id | id in ids :: id in s.clients {
        MergeAllAppends(s, primary, ids, stamp);
      }
    case _ =>
  }

  /** Once a code of a client has been recorded, no run of the routes removes the client. */
  lemma {:induction false} RecordedClientStays(rules: Rules, s: Store, ops: seq<Op>, id: string)
    requires Good(s) && Audited(s.audits, id)
    ensures Good(Run(rules, s, ops)) && Audited(Run(rules, s, ops).audits, id) && id in Run(rules, s, ops).clients
  {
    hide Step, CnpjUnique, Chained;
    if ops != [] {
      var t := Run(rules, s, ops[..|ops| - 1]);
      RecordedClientStays(rules, s, ops[..|ops| - 1], id);
      StepIsGood(rules, t, ops[|ops| - 1]);
      StepAppends(rules, t, ops[|ops| - 1]);
    }
  }

  /** A client that has a code cannot be deleted by either route. */
  lemma CodedClientIsKept(s: Store, id: string, scope: Option<string>, refused: bool)
    requires Told(s) && id in s.clients && AuditedCode(s.clients[id].code).Some?
    ensures DeleteStep(s, id, scope, refused).0 == s && DeleteStep(s, id, scope, refused).1.Refused?
  {
    assert CodeTold(s, id);
    hide AuditedCode;
    if !Audited(s.audits, id) {
      NoRowsNoCode(s.audits, id);
    }
  }

  // ----- A manual merge -----

  lemma {:induction false} MergeAllWrites(s: Store, primary: string, ids: seq<string>, stamp: string, id: string)
    requires (forall d | d in ids :: d in s.clients) && (forall i, j | 0 <= i < j < |ids| :: ids[i] != ids[j])
             && id in s.clients
    ensures MergeAll(s, primary, ids, stamp).clients[id]
            == if id in ids then MergedAway(s.clients[id], primary, stamp) else s.clients[id]
  {
    hide MergedAway, Recorded;
    if ids != [] {
      var init, last := ids[..|ids| - 1], ids[|ids| - 1];
      MergeAllWrites(s, primary, init, stamp, id);
      assert ids == init + [last];
      assert id in ids <==> id in init || id == last;
      assert forall i | 0 <= i < |init| :: ids[i] != ids[|init|];
      assert last !in init;
      MergeOneWrites(MergeAll(s, primary, init, stamp), primary, last, stamp, id);
      hide MergeOne;
    }
  }

  lemma MergeOneWrites(s: Store, primary: string, id: string, stamp: string, other: string)
    requires id in s.clients && other in s.clients
    ensures MergeOne(s, primary, id, stamp).clients[other]
            == if other == id then MergedAway(s.clients[id], primary, stamp) else s.clients[other]
  {
  }

  /** A merge archives every duplicate once and changes nobody else, whatever list of ids it is given. */
  lemma MergeArchivesDuplicates(s: Store, primary: string, duplicates: seq<string>, stamp: string, refused: bool,
                                id: string)
    requires MergeStep(s, primary, duplicates, stamp, refused).1.Done? && id in s.clients
    ensures var t := MergeStep(s, primary, duplicates, stamp, refused).0;
            && t.clients.Keys == s.clients.Keys
            && (id in duplicates && id != primary ==>
                  t.clients[id] == MergedAway(s.clients[id], primary, stamp) && t.clients[id].archived
                  && t.clients[id].cnpjNormalized.None?)
            && (id !in duplicates || id == primary ==> t.clients[id] == s.clients[id])
  {
    hide MergeAll;
    MergeAllWrites(s, primary, Distinct(duplicates, primary), stamp, id);
  }

  // ----- Single requests -----

  function NoClients(): Store {
    Store(map[], [])
  }

  lemma RowOf(rules: Rules, p: NewClient)
    ensures var c := Row(rules, p);
            && c.code == p.code && c.cnpj == p.cnpj && c.region == p.region && c.name == p.name && c.owner == p.owner
            && !c.archived && c.cnpjNormalized == OrNull(Digits(TextOf(p.cnpj)))
              && c.nameNormalized == Some(rules.text(p.name))
  {
    hide Trim, Digits;
  }

  lemma RunOne(rules: Rules, s: Store, op: Op)
    ensures Run(rules, s, [op]) == Step(rules, s, op)
  {
    assert [op][..0] == [];
    hide Step;
  }

  lemma RunLast(rules: Rules, s: Store, ops: seq<Op>, op: Op)
    ensures Run(rules, s, ops + [op]) == Step(rules, Run(rules, s, ops), op)
  {
    assert (ops + [op])[..|ops|] == ops;
    hide Step;
  }

  lemma NobodyYet(rules: Rules, candidate: Candidate, scope: Option<string>)
    ensures FindDuplicate(rules, map[], candidate, scope, None).None?
  {
    hide Normalized;
  }

  lemma Created(rules: Rules, s: Store, id: string, p: NewClient)
    requires id !in s.clients && FindDuplicate(rules, s.clients, CandidateOf(Prepared(rules, p)), None, None).None?
    ensures Step(rules, s, Create(id, p, None, false))
            == Store(s.clients[id := Row(rules, p)], Recorded(s.audits, id, None, p.code))
  {
    hide FindDuplicate, Row, Recorded, Prepared, CandidateOf;
  }
}
