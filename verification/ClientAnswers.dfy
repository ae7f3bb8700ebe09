/** What the client routes answer and write (`apps/api/src/routes/crudRoutes.ts`), told from the columns of the table.
    */
module ClientAnswers {
  import opened Text
  import opened ClientRegistry

  // ----- Who is in the way -----

  predicate Empty(text: Option<string>) {
    text == None || text == Some("")
  }

  /** The stored code is the candidate's, trimmed. */
  predicate HasItsCode(c: Client, x: Candidate) {
    Trim(TextOf(x.code)) != "" && c.code == Some(Trim(TextOf(x.code)))
  }

  /** The stored digits are the candidate's or, when it has any, the document is written the same. */
  predicate HasItsDocument(c: Client, x: Candidate) {
    && Digits(TextOf(x.cnpj)) != ""
    && (c.cnpjNormalized == Some(Digits(TextOf(x.cnpj))) || (!Empty(x.cnpj) && c.cnpj == x.cnpj))
  }

  /** The stored normalised text or, without one, the normalised text. */
  function Normal(rules: Rules, stored: Option<string>, text: string): string {
    if Empty(stored) then rules.text(text) else stored.value
  }

  predicate HasItsIdentity(rules: Rules, c: Client, x: Candidate) {
    && Normal(rules, c.nameNormalized, c.name) == rules.text(x.name)
    && Normal(rules, c.cityNormalized, c.city) == rules.text(x.city)
    && rules.state(c.state) == rules.state(x.state)
  }

  /** An active client other than the one being written. */
  predicate Rival(t: Table, ignore: Option<string>, id: string) {
    id in t && !t[id].archived && Some(id) != ignore
  }

  predicate Within(scope: Option<string>, c: Client) {
    scope == None || scope == Some(c.owner)
  }

  ghost predicate CodeClash(t: Table, x: Candidate, ignore: Option<string>) {
    exists id | id in t :: Rival(t, ignore, id) && HasItsCode(t[id], x)
  }

  ghost predicate DocumentClash(t: Table, x: Candidate, ignore: Option<string>) {
    exists id | id in t :: Rival(t, ignore, id) && HasItsDocument(t[id], x)
  }

  ghost predicate IdentityClash(rules: Rules, t: Table, x: Candidate, scope: Option<string>, ignore: Option<string>) {
    exists id | id in t :: Rival(t, ignore, id) && Within(scope, t[id]) && HasItsIdentity(rules, t[id], x)
  }

  ghost predicate Clash(rules: Rules, t: Table, x: Candidate, scope: Option<string>, ignore: Option<string>) {
    CodeClash(t, x, ignore) || DocumentClash(t, x, ignore) || IdentityClash(rules, t, x, scope, ignore)
  }

  /** The check reports a code first, then a document, both against every seller's clients, then name, city and state
      against those in scope; and nothing exactly when nobody is in the way. */
  lemma ChecksInOrder(rules: Rules, t: Table, x: Candidate, scope: Option<string>, ignore: Option<string>)
    ensures var found := FindDuplicate(rules, t, x, scope, ignore);
            && (found == Some(ByCode) <==> CodeClash(t, x, ignore))
            && (found == Some(ByCnpj) <==> !CodeClash(t, x, ignore) && DocumentClash(t, x, ignore))
            && (found == Some(ByIdentity) <==>
                  !CodeClash(t, x, ignore) && !DocumentClash(t, x, ignore) && IdentityClash(rules, t, x, scope, ignore))
            && (found == None <==> !Clash(rules, t, x, scope, ignore))
  {
    var n := Normalized(rules, x);
    SameTests(rules, x, scope);
    forall id ensures Rival(t, ignore, id) <==> Active(t, ignore, id) {
    }
    hide Normalized, Rival, Active, HasItsCode, HasItsDocument, SameCnpj, HasItsIdentity, SameIdentity, Within, InScope;
  }

  lemma SameTests(rules: Rules, x: Candidate, scope: Option<string>)
    ensures var n := Normalized(rules, x);
            && (forall c :: HasItsCode(c, x) <==> n.code != "" && c.code == Some(n.code))
            && (forall c :: HasItsDocument(c, x) <==> n.cnpj != "" && SameCnpj(n, x, c))
            && (forall c :: HasItsIdentity(rules, c, x) <==> SameIdentity(rules, n, c))
            && (forall c :: Within(scope, c) <==> InScope(scope, c))
  {
    hide Trim, Digits;
  }

  // ----- Creating and editing -----

  /** The row for the code going from one text to another: none when, trimmed, they are equal. */
  function CodeRow(id: string, before: Option<string>, after: Option<string>): seq<Audit> {
    var b, a := Trim(TextOf(before)), Trim(TextOf(after));
    if a == b then [] else [Audit(id, if b == "" then None else Some(b), if a == "" then None else Some(a))]
  }

  lemma RecordsOneRow(audits: seq<Audit>, id: string, before: Option<string>, after: Option<string>)
    ensures Recorded(audits, id, before, after) == audits + CodeRow(id, before, after)
  {
    hide Trim;
  }

  predicate NormalisedAs(rules: Rules, name: string, city: string, state: string, cnpj: Option<string>, c: Client) {
    && c.nameNormalized == Some(rules.text(name)) && c.cityNormalized == Some(rules.text(city))
      && c.state == rules.state(state)
    && c.cnpjNormalized == (if Digits(TextOf(cnpj)) == "" then None else Some(Digits(TextOf(cnpj))))
  }

  predicate WrittenAs(rules: Rules, p: NewClient, c: Client) {
    && c.name == p.name && c.city == p.city && c.region == p.region && c.fantasyName == p.fantasyName
      && c.code == p.code
    && c.cnpj == p.cnpj && c.lastPurchaseDate == p.lastPurchaseDate && c.owner == p.owner && !c.archived
    && NormalisedAs(rules, p.name, p.city, p.state, p.cnpj, c)
  }

  predicate Puts(s: Store, t: Store, id: string, rows: seq<Audit>) {
    && t.clients.Keys == s.clients.Keys + {id} && t.audits == s.audits + rows
    && forall other | other in s.clients && other != id :: t.clients[other] == s.clients[other]
  }

  function AsChecked(rules: Rules, p: NewClient): Candidate {
    Candidate(p.name, p.city, rules.state(p.state), p.cnpj, p.code)
  }

  /** A client is created, with every column as requested and the audit row of its code, exactly when nobody is in the
      way and the database takes the row; otherwise 409 and nothing changes. */
  lemma CreateAnswers(rules: Rules, s: Store, id: string, p: NewClient, scope: Option<string>, refused: bool)
    ensures var (t, reply) := CreateStep(rules, s, id, p, scope, refused);
            if Clash(rules, s.clients, AsChecked(rules, p), scope, None) || refused || id in s.clients
            then t == s && reply == Refused(409)
            else reply == Done(201) && Puts(s, t, id, CodeRow(id, None, p.code)) && WrittenAs(rules, p, t.clients[id])
  {
    ChecksInOrder(rules, s.clients, AsChecked(rules, p), scope, None);
    RecordsOneRow(s.audits, id, None, p.code);
    RowIsWritten(rules, p);
    hide FindDuplicate, Clash, CodeClash, DocumentClash, IdentityClash, Row, Recorded, CodeRow, WrittenAs;
  }

  lemma RowIsWritten(rules: Rules, p: NewClient)
    ensures WrittenAs(rules, p, Row(rules, p))
  {
    hide Trim, Digits;
  }

  /** A company likewise, without a code to audit. */
  lemma CreateCompanyAnswers(rules: Rules, s: Store, id: string, name: string, cnpj: Option<string>, region: string,
                             owner: string, scope: Option<string>, refused: bool)
    ensures var (t, reply) :=
            CreateCompanyStep(rules, s, id, CompanyPayload(name, cnpj, region, owner), scope, refused);
            var p := NewClient(name, "Não informado", "NI", region, None, None, cnpj, None, owner);
            if Clash(rules, s.clients, AsChecked(rules, p), scope, None) || refused || id in s.clients
            then t == s && reply == Refused(409)
            else reply == Done(201) && Puts(s, t, id, []) && WrittenAs(rules, p, t.clients[id])
  {
    var p := CompanyPayload(name, cnpj, region, owner);
    ChecksInOrder(rules, s.clients, AsChecked(rules, p), scope, None);
    RowIsWritten(rules, p);
    hide FindDuplicate, Clash, CodeClash, DocumentClash, IdentityClash, Row, WrittenAs;
  }

  /** The field given or, without one, the old one. */
  predicate Kept<T(==)>(given: Option<T>, before: T, after: T) {
    match given
    case Some(x) => after == x
    case None => after == before
  }

  predicate KeptText(given: Option<string>, before: Option<string>, after: Option<string>) {
    match given
    case Some(x) => after == Some(x)
    case None => after == before
  }

  predicate EditedAs(rules: Rules, e: Edit, b: Client, c: Client) {
    && Kept(e.name, b.name, c.name) && Kept(e.city, b.city, c.city) && Kept(e.region, b.region, c.region)
    && Kept(e.owner, b.owner, c.owner) && KeptText(e.fantasyName, b.fantasyName, c.fantasyName)
    && KeptText(e.code, b.code, c.code) && KeptText(e.cnpj, b.cnpj, c.cnpj)
    && c.lastPurchaseDate == b.lastPurchaseDate && c.archived == b.archived
    && NormalisedAs(rules, c.name, c.city, if e.state.Some? then e.state.value else b.state, c.cnpj, c)
  }

  /** The client as the edit would leave it. */
  function AsEdited(b: Client, e: Edit): Candidate {
    Candidate(if e.name.Some? then e.name.value else b.name, if e.city.Some? then e.city.value else b.city,
              if e.state.Some? then e.state.value else b.state, if e.cnpj.Some? then e.cnpj else b.cnpj,
              if e.code.Some? then e.code else b.code)
  }

  /** An edit: 404 without the client, 403 for another seller's, 409 when somebody else is in the way of the result or
      the database refuses; otherwise each column is the one given or the old one, and the code's change is audited.
      */
  lemma UpdateAnswers(rules: Rules, s: Store, id: string, e: Edit, scope: Option<string>, refused: bool)
    ensures var (t, reply) := UpdateStep(rules, s, id, e, scope, refused);
            if id !in s.clients then t == s && reply == Refused(404)
            else if !Within(scope, s.clients[id]) then t == s && reply == Refused(403)
            else if Clash(rules, s.clients, AsEdited(s.clients[id], e), scope, Some(id)) || refused
              then t == s && reply == Refused(409)
            else
              && reply == Done(200) && id in t.clients && EditedAs(rules, e, s.clients[id], t.clients[id])
              && Puts(s, t, id, CodeRow(id, s.clients[id].code, t.clients[id].code))
  {
    if id in s.clients {
      var b := s.clients[id];
      ChecksInOrder(rules, s.clients, AsEdited(b, e), scope, Some(id));
      EditIsWritten(rules, e, b);
      RecordsOneRow(s.audits, id, b.code, Edited(rules, b, e).code);
      assert Merged(b, e) == AsEdited(b, e);
      hide FindDuplicate, Clash, CodeClash, DocumentClash, IdentityClash, Edited, Recorded, CodeRow, EditedAs, Merged,
           AsEdited;
    }
  }

  lemma EditIsWritten(rules: Rules, e: Edit, b: Client)
    ensures EditedAs(rules, e, b, Edited(rules, b, e))
  {
    hide Trim, Digits;
  }

  /** A company edit: name and document as given, an empty name leaving the old one in place though not in what is
      checked and normalised; the code stays and nothing is audited. */
  lemma UpdateCompanyAnswers(rules: Rules, s: Store, id: string, name: Option<string>, cnpj: Option<string>,
                             scope: Option<string>, refused: bool)
    ensures var (t, reply) := UpdateCompanyStep(rules, s, id, name, cnpj, scope, refused);
            if id !in s.clients then t == s && reply == Refused(404)
            else
              var b := s.clients[id];
              var e := Edit(name, None, None, None, None, None, cnpj, None);
              if Clash(rules, s.clients, AsEdited(b, e), scope, Some(id)) || refused
                then t == s && reply == Refused(409)
              else
                && reply == Done(200) && Puts(s, t, id, []) && id in t.clients
                && CompanyEditedAs(rules, name, cnpj, b, t.clients[id])
  {
    if id in s.clients {
      var b := s.clients[id];
      ChecksInOrder(rules, s.clients, AsEdited(b, Edit(name, None, None, None, None, None, cnpj, None)), scope,
                    Some(id));
      CompanyEditIsWritten(rules, name, cnpj, b);
      hide FindDuplicate, Clash, CodeClash, DocumentClash, IdentityClash, CompanyEdited, CompanyEditedAs;
    }
  }

  predicate CompanyEditedAs(rules: Rules, name: Option<string>, cnpj: Option<string>, b: Client, c: Client) {
    && c.name == (if Empty(name) then b.name else name.value) && KeptText(cnpj, b.cnpj, c.cnpj)
    && c.code == b.code && c.city == b.city && c.region == b.region && c.fantasyName == b.fantasyName
    && c.lastPurchaseDate == b.lastPurchaseDate && c.owner == b.owner && c.archived == b.archived
    && NormalisedAs(rules, if name.Some? then name.value else b.name, b.city, b.state, c.cnpj, c)
  }

  lemma CompanyEditIsWritten(rules: Rules, name: Option<string>, cnpj: Option<string>, b: Client)
    ensures CompanyEditedAs(rules, name, cnpj, b, CompanyEdited(rules, b, name, cnpj))
  {
    hide Trim, Digits;
  }

  /** The client an opportunity import creates: a name, an owner and placeholders, neither checked nor normalised. */
  lemma AutoCreateAnswers(s: Store, id: string, name: string, owner: string, refused: bool)
    ensures var (t, reply) := AutoCreateStep(s, id, name, owner, refused);
            if refused || id in s.clients then t == s && reply == Refused(500)
            else
              && reply == Done(201) && Puts(s, t, id, []) && var c := t.clients[id];
              && c.name == name && c.owner == owner && c.city == "N/A" && c.state == "NA" && c.region == "Importação"
              && c.code == None && c.cnpj == None && c.fantasyName == None && c.lastPurchaseDate == None && !c.archived
              && c.nameNormalized == None && c.cityNormalized == None && c.cnpjNormalized == None
  {
  }

  /** A deletion: 404 without the client, 403 for another seller's, 500 with an audit row of it or when another table
      refuses; otherwise the client goes and nobody else. */
  lemma DeleteAnswers(s: Store, id: string, scope: Option<string>, refused: bool)
    ensures var (t, reply) := DeleteStep(s, id, scope, refused);
            if id !in s.clients then t == s && reply == Refused(404)
            else if !Within(scope, s.clients[id]) then t == s && reply == Refused(403)
            else if refused || exists a | a in s.audits :: a.clientId == id then t == s && reply == Refused(500)
            else
              && reply == Done(204) && t.audits == s.audits && t.clients.Keys == s.clients.Keys - {id}
              && forall other | other in t.clients :: t.clients[other] == s.clients[other]
  {
  }

  predicate MergedInto(b: Client, primary: string, stamp: string, c: Client) {
    && c.archived && c.cnpjNormalized == None && c.name == "[ARQUIVADO] " + b.name
    && c.code == (if Empty(b.code) then None else Some(b.code.value + ("__MERGED__" + stamp)))
    && c.cnpj == (if Empty(b.cnpj) then None else Some(b.cnpj.value + (" [MERGED INTO " + primary + "]")))
    && c.nameNormalized == b.nameNormalized && c.city == b.city && c.cityNormalized == b.cityNormalized
      && c.state == b.state
    && c.region == b.region && c.fantasyName == b.fantasyName && c.lastPurchaseDate == b.lastPurchaseDate
      && c.owner == b.owner
  }

  /** A merge: 400 without a duplicate other than the primary, 404 when one of them or the primary is missing, 500
      rolled back; otherwise every listed duplicate is archived under marked identifiers and everybody else stays. */
  lemma MergeAnswers(s: Store, primary: string, duplicates: seq<string>, stamp: string, refused: bool)
    ensures var (t, reply) := MergeStep(s, primary, duplicates, stamp, refused);
            if forall id | id in duplicates :: id == primary then t == s && reply == Refused(400)
            else if primary !in s.clients || exists id | id in duplicates :: id != primary && id !in s.clients
            then t == s && reply == Refused(404)
            else if refused then t == s && reply == Refused(500)
            else
              && reply == Done(200) && t.clients.Keys == s.clients.Keys
              && forall id | id in s.clients ::
                   if id in duplicates && id != primary then MergedInto(s.clients[id], primary, stamp, t.clients[id])
                   else t.clients[id] == s.clients[id]
  {
    var (t, reply) := MergeStep(s, primary, duplicates, stamp, refused);
    DistinctEmpty(duplicates, primary);
    if reply.Done? {
      forall id | id in s.clients ensures
        id in t.clients
        && if id in duplicates && id != primary then MergedInto(s.clients[id], primary, stamp, t.clients[id])
           else t.clients[id] == s.clients[id]
      {
        MergeArchivesDuplicates(s, primary, duplicates, stamp, refused, id);
        MergedAwayIs(s.clients[id], primary, stamp);
        hide MergeStep, MergedAway, MergedInto;
      }
    }
    hide MergeAll, MergedAway, MergedInto, Distinct;
  }

  lemma DistinctEmpty(duplicates: seq<string>, primary: string)
    ensures Distinct(duplicates, primary) == [] <==> forall id | id in duplicates :: id == primary
  {
    var r := Distinct(duplicates, primary);
    hide Distinct;
    if r != [] {
      assert r[0] in r;
    }
  }

  lemma MergedAwayIs(b: Client, primary: string, stamp: string)
    ensures MergedInto(b, primary, stamp, MergedAway(b, primary, stamp))
  {
  }

  // ----- The client import -----

  /** What the import starts from: the active clients in scope, each once, in the order of the query. */
  lemma LoadsInOrder(t: Table, order: seq<string>, scope: Option<string>)
    ensures order == [] ==> Loaded(t, order, scope) == []
    ensures order != [] ==>
              var before, id := Loaded(t, order[..|order| - 1], scope), order[|order| - 1];
              Loaded(t, order, scope)
              == if id in t && !t[id].archived && Within(scope, t[id]) && !(exists c | c in before :: c.id == id)
                 then before + [Copy(id, t[id], false)] else before
  {
  }

  predicate DocumentLike(p: NewClient, c: Copy) {
    Digits(TextOf(p.cnpj)) != "" && Digits(TextOf(c.client.cnpj)) == Digits(TextOf(p.cnpj))
  }

  predicate CodeLike(rules: Rules, p: NewClient, c: Copy) {
    rules.lower(Trim(TextOf(p.code))) != ""
      && rules.lower(Trim(TextOf(c.client.code))) == rules.lower(Trim(TextOf(p.code)))
  }

  /** The `i`-th remembered client is the one the row means: the last with its document or, when none has it, the last
      with its code. */
  ghost predicate Meant(rules: Rules, memory: seq<Copy>, p: NewClient, i: nat) {
    && i < |memory|
    && if exists c | c in memory :: DocumentLike(p, c)
       then DocumentLike(p, memory[i]) && forall j | i < j < |memory| :: !DocumentLike(p, memory[j])
       else CodeLike(rules, p, memory[i]) && forall j | i < j < |memory| :: !CodeLike(rules, p, memory[j])
  }

  ghost predicate Unmatched(rules: Rules, memory: seq<Copy>, p: NewClient) {
    forall c | c in memory :: !DocumentLike(p, c) && !CodeLike(rules, p, c)
  }

  function Search(rules: Rules, memory: seq<Copy>, p: NewClient): Option<Copy> {
    FindExisting(rules, IndexBy(memory, CnpjKey()), IndexBy(memory, CodeKey(rules)), p)
  }

  lemma {:induction false} IndexHoldsLast(memory: seq<Copy>, key: Copy -> string, k: string) returns (i: nat)
    requires k != ""
    ensures k !in IndexBy(memory, key) ==> forall c | c in memory :: key(c) != k
    ensures k in IndexBy(memory, key) ==>
              && i < |memory| && key(memory[i]) == k && IndexBy(memory, key)[k] == memory[i]
              && forall j | i < j < |memory| :: key(memory[j]) != k
  {
    i := 0;
    if memory != [] {
      var n := |memory| - 1;
      i := IndexHoldsLast(memory[..n], key, k);
      assert memory == memory[..n] + [memory[n]];
      if key(memory[n]) == k {
        i := n;
      }
    }
  }

  /** The import finds the client the row means, and none exactly when nobody remembered has its document or its code.
      */
  lemma FindsTheMeant(rules: Rules, memory: seq<Copy>, p: NewClient) returns (i: nat)
    ensures Search(rules, memory, p) == None <==> Unmatched(rules, memory, p)
    ensures Search(rules, memory, p).Some? ==> Meant(rules, memory, p, i) && Search(rules, memory, p) == Some(memory[i])
  {
    hide IndexBy, Trim, Digits;
    var cnpj, code := Digits(TextOf(p.cnpj)), rules.lower(Trim(TextOf(p.code)));
    i := 0;
    if cnpj != "" {
      i := IndexHoldsLast(memory, CnpjKey(), cnpj);
    }
    var k: nat := 0;
    if code != "" {
      k := IndexHoldsLast(memory, CodeKey(rules), code);
    }
    forall c ensures DocumentLike(p, c) <==> cnpj != "" && CnpjKey()(c) == cnpj {
    }
    forall c ensures CodeLike(rules, p, c) <==> code != "" && CodeKey(rules)(c) == code {
    }
    hide DocumentLike, CodeLike, CnpjKey, CodeKey;
    if cnpj != "" && cnpj in IndexBy(memory, CnpjKey()) {
      assert memory[i] in memory;
    } else {
      i := k;
      assert k < |memory| ==> memory[k] in memory;
    }
  }

  predicate Says(text: string) {
    Trim(text) != "" && Trim(text) != "-"
  }

  function CityAfter(b: Client, p: NewClient): string {
    if Says(p.city) && Trim(b.city) == "" then Trim(p.city) else b.city
  }

  function StateAfter(b: Client, p: NewClient): string {
    if Says(p.state) && Trim(b.state) == "" then Trim(p.state) else b.state
  }

  function TextAfter(before: Option<string>, given: Option<string>): Option<string> {
    if Trim(TextOf(given)) != "" && Trim(TextOf(before)) == "" then Some(Trim(TextOf(given))) else before
  }

  /** Some column would change: a place or region that says something, a trade name, code or purchase the client
      lacks. */
  predicate BringsSomething(copy: Copy, p: NewClient) {
    var b := copy.client;
    || (Says(p.city) && Trim(b.city) == "") || (Says(p.state) && Trim(b.state) == "")
    || (Says(p.region) && (!copy.full || Trim(b.region) == ""))
    || (Trim(TextOf(p.fantasyName)) != "" && Trim(TextOf(b.fantasyName)) == "")
    || (Trim(TextOf(p.code)) != "" && Trim(TextOf(b.code)) == "")
    || (p.lastPurchaseDate.Some? && (!copy.full || b.lastPurchaseDate == None))
  }

  predicate FilledAs(rules: Rules, full: bool, p: NewClient, b: Client, c: Client) {
    && c.name == b.name && c.cnpj == b.cnpj && c.owner == b.owner && c.archived == b.archived
    && c.city == CityAfter(b, p) && c.fantasyName == TextAfter(b.fantasyName, p.fantasyName)
      && c.code == TextAfter(b.code, p.code)
    && c.region == (if Says(p.region) && (!full || Trim(b.region) == "") then Trim(p.region) else b.region)
    && c.lastPurchaseDate
      == (if p.lastPurchaseDate.Some? && (!full || b.lastPurchaseDate == None) then p.lastPurchaseDate
                              else b.lastPurchaseDate)
    && NormalisedAs(rules, b.name, CityAfter(b, p), StateAfter(b, p), b.cnpj, c)
  }

  /** A row for a remembered client: ignored when it brings nothing, a conflict when somebody else is in the way of the
      filled client (its code apart) or the database refuses; otherwise the empty columns are filled, the code's change
      is audited and the memory holds the client as written. */
  lemma UpdateRowAnswers(rules: Rules, st: Importing, copy: Copy, p: NewClient, scope: Option<string>, refused: bool)
    requires Faithful(st) && copy in st.memory
    ensures var (after, result) := UpdateRowStep(rules, st, copy, p, scope, refused);
            var b := copy.client;
            if !BringsSomething(copy, p) then after == st && result == Ignored
            else if Clash(rules, st.store.clients, Candidate(b.name, CityAfter(b, p), StateAfter(b, p), b.cnpj, None),
                          scope, Some(copy.id))
                    || refused
            then after == st && result == Conflict
            else
              && result == Updated && copy.id in after.store.clients
              && var c := after.store.clients[copy.id];
                 && FilledAs(rules, copy.full, p, b, c)
                 && Puts(st.store, after.store, copy.id, CodeRow(copy.id, b.code, c.code))
                 && |after.memory| == |st.memory|
                 && forall i | 0 <= i < |st.memory| ::
                      after.memory[i] == if st.memory[i].id == copy.id then Copy(copy.id, c, true) else st.memory[i]
  {
    assert Matches(st.store.clients, copy);
    var f, b := FillOf(copy, p), copy.client;
    FillBrings(copy, p);
    FillIsWritten(rules, copy, p);
    var x := Candidate(b.name, CityAfter(b, p), StateAfter(b, p), b.cnpj, None);
    ChecksInOrder(rules, st.store.clients, x, scope, Some(copy.id));
    RecordsOneRow(st.store.audits, copy.id, b.code, Filled(rules, b, copy, f).code);
    hide FindDuplicate, Clash, CodeClash, DocumentClash, IdentityClash, Filled, FillOf, Recorded, CodeRow, FilledAs,
         HasChanges,
         BringsSomething, FilledCandidate, CityAfter, StateAfter, Faithful;
  }

  lemma FillBrings(copy: Copy, p: NewClient)
    ensures HasChanges(FillOf(copy, p)) <==> BringsSomething(copy, p)
    ensures var b := copy.client;
            FilledCandidate(copy, FillOf(copy, p)) == Candidate(b.name, CityAfter(b, p), StateAfter(b, p), b.cnpj, None)
  {
    hide Trim;
  }

  lemma FillIsWritten(rules: Rules, copy: Copy, p: NewClient)
    ensures FilledAs(rules, copy.full, p, copy.client, Filled(rules, copy.client, copy, FillOf(copy, p)))
  {
    hide Trim, Digits;
  }

  /** The row as it is created: texts trimmed, empty optional ones dropped, a document only when it says something. */
  function Cleaned(p: NewClient): NewClient {
    NewClient(Trim(p.name), Trim(p.city), Trim(p.state), Trim(p.region),
              if Trim(TextOf(p.fantasyName)) == "" then None else Some(Trim(TextOf(p.fantasyName))),
              if Trim(TextOf(p.code)) == "" then None else Some(Trim(TextOf(p.code))),
              if Says(TextOf(p.cnpj)) then Some(Trim(TextOf(p.cnpj))) else None, p.lastPurchaseDate, p.owner)
  }

  /** A row for nobody remembered is created like any client, and remembered as written. */
  lemma CreateRowAnswers(rules: Rules, st: Importing, p: NewClient, scope: Option<string>, env: RowEnv)
    ensures var (after, result) := CreateRowStep(rules, st, p, scope, env);
            var q := Cleaned(p);
            if Clash(rules, st.store.clients, AsChecked(rules, q), scope, None) || env.refused
              || env.newId in st.store.clients
            then after == st && result == Conflict
            else
              && result == Imported && Puts(st.store, after.store, env.newId, CodeRow(env.newId, None, q.code))
              && WrittenAs(rules, q, after.store.clients[env.newId])
              && after.memory == st.memory + [Copy(env.newId, after.store.clients[env.newId], true)]
  {
    CleanedIsPayload(p);
    CreateAnswers(rules, st.store, env.newId, Cleaned(p), scope, env.refused);
    hide FindDuplicate, Clash, Row, Recorded, CodeRow, WrittenAs, Cleaned, ImportPayload, AsChecked;
  }

  lemma CleanedIsPayload(p: NewClient)
    ensures Cleaned(p) == ImportPayload(p)
  {
    hide Trim;
  }

  /** One turn of the import: a row that does not parse is a conflict, one to be skipped is ignored, any other is an
      update of the client it means or a creation; its result is counted once, under its own kind. */
  lemma TurnAnswers(rules: Rules, i: Imports, row: ImportRow, scope: Option<string>, env: RowEnv)
    ensures var after := ImportTurn(rules, i, row, scope, env);
            match row
            case Bad => after == Imports(i.state, i.counts.(conflicts := i.counts.conflicts + 1))
            case Skipped => after == Imports(i.state, i.counts.(ignored := i.counts.ignored + 1))
            case Payload(p) =>
              match Search(rules, i.state.memory, p)
              case Some(copy) =>
                CountedOnce(i.counts, UpdateRowStep(rules, i.state, copy, p, scope, env.refused), after)
              case None => CountedOnce(i.counts, CreateRowStep(rules, i.state, p, scope, env), after)
  {
    hide UpdateRowStep, CreateRowStep, FindExisting, IndexBy, CnpjKey, CodeKey;
  }

  predicate CountedOnce(before: Counts, answer: (Importing, RowResult), after: Imports) {
    && after.state == answer.0
    && after.counts.created == before.created + (if answer.1.Imported? then 1 else 0)
    && after.counts.updated == before.updated + (if answer.1.Updated? then 1 else 0)
    && after.counts.ignored == before.ignored + (if answer.1.Ignored? then 1 else 0)
    && after.counts.conflicts == before.conflicts + (if answer.1.Conflict? then 1 else 0)
  }
}
