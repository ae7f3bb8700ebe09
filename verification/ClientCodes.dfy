/** The codes of active clients and what a client import writes over (`apps/api/src/routes/crudRoutes.ts`): which routes
    keep codes distinct, and exactly when the others do. */
module ClientCodes {
  import opened Text
  import opened ClientRegistry

  // ----- What an import writes over -----

  /** An import row that updates a client never replaces a code, a city or a trade name it has, and never touches its
      name, document or owner. */
  lemma UpdateFillsOnlyEmpty(rules: Rules, st: Importing, copy: Copy, p: NewClient, scope: Option<string>,
                             refused: bool)
    requires Faithful(st) && copy in st.memory && UpdateRowStep(rules, st, copy, p, scope, refused).1 == Updated
    ensures var before, after := st.store.clients[copy.id],
            UpdateRowStep(rules, st, copy, p, scope, refused).0.store.clients[copy.id];
            && after.name == before.name && after.cnpj == before.cnpj && after.owner == before.owner
            && after.archived == before.archived
            && (!Blank(TextOf(before.code)) ==> after.code == before.code)
            && (!Blank(TextOf(before.fantasyName)) ==> after.fantasyName == before.fantasyName)
            && (!Blank(before.city) ==> after.city == before.city)
  {
    assert Matches(st.store.clients, copy);
    hide Trim, FindDuplicate, Normalized, Recorded, Faithful, Meaningful, Blank;
  }

  /** The region and the last purchase a client has are safe from the second update on only: the memory does not hold
      them at first. A first update keeps the region exactly when the row has none to give or gives the same one, and
      the last purchase likewise. */
  lemma FirstUpdateOverwrites(rules: Rules, st: Importing, copy: Copy, p: NewClient, scope: Option<string>,
                              refused: bool)
    requires Faithful(st) && copy in st.memory && UpdateRowStep(rules, st, copy, p, scope, refused).1 == Updated
    ensures var before, after := st.store.clients[copy.id],
            UpdateRowStep(rules, st, copy, p, scope, refused).0.store.clients[copy.id];
            && (!Blank(before.region) ==>
                  (after.region == before.region
                   <==> copy.full || !Meaningful(p.region) || Trim(p.region) == before.region))
            && (before.lastPurchaseDate.Some? ==>
                  (after.lastPurchaseDate == before.lastPurchaseDate
                   <==> copy.full || p.lastPurchaseDate.None? || p.lastPurchaseDate == before.lastPurchaseDate))
  {
    assert Matches(st.store.clients, copy);
    hide Trim, FindDuplicate, Normalized, Recorded, Faithful, Meaningful, Blank;
  }

  predicate CodeApart(a: Client, b: Client) {
    a.archived || b.archived || AuditedCode(a.code).None? || AuditedCode(a.code) != AuditedCode(b.code)
  }

  ghost predicate CodeUnique(t: Table) {
    forall i, j | i in t && j in t && i != j :: CodeApart(t[i], t[j])
  }

  /** Another active client has the code. */
  predicate CodeTaken(t: Table, id: string, code: string) {
    exists other | other in t :: Active(t, Some(id), other) && AuditedCode(t[other].code) == Some(code)
  }

  /** The import does not check the code it fills in: active clients keep distinct codes exactly when nobody had it. */
  lemma FillingCodeSharesIt(rules: Rules, st: Importing, copy: Copy, p: NewClient, scope: Option<string>, refused: bool)
    requires Faithful(st) && copy in st.memory && UpdateRowStep(rules, st, copy, p, scope, refused).1 == Updated
    requires CodeUnique(st.store.clients) && !st.store.clients[copy.id].archived
    ensures CodeUnique(UpdateRowStep(rules, st, copy, p, scope, refused).0.store.clients)
            <==> !(FillOf(copy, p).code.Some? && CodeTaken(st.store.clients, copy.id, FillOf(copy, p).code.value))
  {
    hide *;
    CopyMatches(st, copy);
    UpdateRowWrites(rules, st, copy, p, scope, refused);
    var t, f := st.store.clients, FillOf(copy, p);
    var changed := Filled(rules, t[copy.id], copy, f);
    FilledKeeps(rules, t[copy.id], copy, f);
    OrKeepEither(f.code, t[copy.id].code);
    if f.code.Some? {
      FilledCode(copy, p);
      NewCodeShared(t, copy.id, changed, f.code.value);
    } else {
      SameCodeUnshared(t, copy.id, changed);
    }
  }

  lemma CopyMatches(st: Importing, copy: Copy)
    requires Faithful(st) && copy in st.memory
    ensures copy.id in st.store.clients && st.store.clients[copy.id] == copy.client
  {
    assert Matches(st.store.clients, copy);
  }

  lemma OrKeepEither(a: Option<string>, b: Option<string>)
    ensures OrKeepOption(a, b) == if a.Some? then a else b
  {
  }

  lemma UpdateRowWrites(rules: Rules, st: Importing, copy: Copy, p: NewClient, scope: Option<string>, refused: bool)
    requires copy.id in st.store.clients && UpdateRowStep(rules, st, copy, p, scope, refused).1 == Updated
    ensures UpdateRowStep(rules, st, copy, p, scope, refused).0.store.clients
            == st.store.clients[copy.id := Filled(rules, st.store.clients[copy.id], copy, FillOf(copy, p))]
  {
    hide FindDuplicate, FillOf, Filled, Recorded;
  }

  lemma FilledKeeps(rules: Rules, c: Client, copy: Copy, f: Fill)
    ensures Filled(rules, c, copy, f).code == OrKeepOption(f.code, c.code)
            && Filled(rules, c, copy, f).archived == c.archived
  {
    hide Normalized;
  }

  lemma NewCodeShared(t: Table, id: string, c: Client, code: string)
    requires CodeUnique(t) && !c.archived && AuditedCode(c.code) == Some(code)
    ensures CodeUnique(t[id := c]) <==> !CodeTaken(t, id, code)
  {
    PutKeepsCodes(t, id, c);
    hide AuditedCode, CodeUnique;
    assert CodeTaken(t, id, code) <==> exists other | other in t && other != id :: !CodeApart(c, t[other]);
  }

  lemma SameCodeUnshared(t: Table, id: string, c: Client)
    requires CodeUnique(t) && id in t && !c.archived && !t[id].archived && c.code == t[id].code
    ensures CodeUnique(t[id := c])
  {
    PutKeepsCodes(t, id, c);
    hide AuditedCode;
    forall other | other in t && other != id ensures CodeApart(c, t[other]) && CodeApart(t[other], c) {
      assert CodeApart(t[id], t[other]) && CodeApart(t[other], t[id]);
    }
  }

  lemma FilledCode(copy: Copy, p: NewClient)
    ensures var f := FillOf(copy, p); f.code.Some? ==> AuditedCode(f.code) == f.code
  {
    TrimIdempotent(TextOf(p.code));
    hide Trim;
  }

  lemma PutKeepsCodes(t: Table, id: string, c: Client)
    requires CodeUnique(t) && !c.archived
    ensures CodeUnique(t[id := c])
            <==> forall other | other in t && other != id :: CodeApart(c, t[other]) && CodeApart(t[other], c)
  {
    hide CodeApart;
    var u := t[id := c];
    if CodeUnique(u) {
      forall other | other in t && other != id ensures CodeApart(c, t[other]) && CodeApart(t[other], c) {
        assert u[other] == t[other] && u[id] == c;
      }
    }
  }

  // ----- Which routes keep codes apart -----

  /** Another active client has the code written with white space around it: trimmed the codes are equal, but the
      check looks for the trimmed code among the codes as they are written. */
  predicate SpacedTwin(t: Table, id: string, code: Option<string>) {
    && AuditedCode(code).Some?
    && exists other | other in t ::
         Active(t, Some(id), other) && AuditedCode(t[other].code) == AuditedCode(code)
           && t[other].code != AuditedCode(code)
  }

  /** A checked candidate keeps codes apart exactly when it has no spaced twin. */
  lemma CheckedCode(rules: Rules, t: Table, candidate: Candidate, scope: Option<string>, ignore: Option<string>,
                    id: string, c: Client)
    requires CodeUnique(t) && FindDuplicate(rules, t, candidate, scope, ignore).None?
    requires !c.archived && c.code == candidate.code && (ignore == Some(id) || (ignore.None? && id !in t))
    ensures CodeUnique(t[id := c]) <==> !SpacedTwin(t, id, c.code)
  {
    hide CodeUnique, FindDuplicate, AuditedCode, CodeTaken, SpacedTwin;
    if AuditedCode(c.code).None? {
      NoCodeUnshared(t, id, c);
      NoTwinWithoutCode(t, id, c.code);
    } else {
      var code := AuditedCode(c.code).value;
      NewCodeShared(t, id, c, code);
      TakenIsSpaced(rules, t, candidate, scope, ignore, id);
    }
  }

  lemma NoTwinWithoutCode(t: Table, id: string, code: Option<string>)
    requires AuditedCode(code).None?
    ensures !SpacedTwin(t, id, code)
  {
    hide AuditedCode;
  }

  lemma NoCodeUnshared(t: Table, id: string, c: Client)
    requires CodeUnique(t) && !c.archived && AuditedCode(c.code).None?
    ensures CodeUnique(t[id := c])
  {
    PutKeepsCodes(t, id, c);
    hide AuditedCode, CodeUnique;
  }

  lemma TakenIsSpaced(rules: Rules, t: Table, candidate: Candidate, scope: Option<string>, ignore: Option<string>,
                      id: string)
    requires FindDuplicate(rules, t, candidate, scope, ignore).None? && AuditedCode(candidate.code).Some?
    requires ignore == Some(id) || (ignore.None? && id !in t)
    ensures CodeTaken(t, id, AuditedCode(candidate.code).value) <==> SpacedTwin(t, id, candidate.code)
  {
    CheckedAgainstWritten(rules, t, candidate, scope, ignore);
    hide FindDuplicate, AuditedCode;
    if other :| other in t && Active(t, Some(id), other) && AuditedCode(t[other].code) == AuditedCode(candidate.code) {
      assert Active(t, ignore, other);
    }
  }

  lemma CheckedAgainstWritten(rules: Rules, t: Table, candidate: Candidate, scope: Option<string>,
                              ignore: Option<string>)
    requires FindDuplicate(rules, t, candidate, scope, ignore).None? && AuditedCode(candidate.code).Some?
    ensures forall other | other in t && Active(t, ignore, other) :: t[other].code != AuditedCode(candidate.code)
  {
    hide SameIdentity, SameCnpj, Trim, Digits;
  }

  lemma ArchivedUnshared(t: Table, id: string, c: Client)
    requires CodeUnique(t) && c.archived
    ensures CodeUnique(t[id := c])
  {
    hide AuditedCode;
    var u := t[id := c];
    forall i, j | i in u && j in u && i != j ensures CodeApart(u[i], u[j]) {
      if i != id && j != id {
        assert CodeApart(t[i], t[j]);
      }
    }
  }

  /** A created client keeps codes apart exactly when it has no spaced twin. */
  lemma CreateKeepsCodes(rules: Rules, s: Store, id: string, p: NewClient, scope: Option<string>, refused: bool)
    requires CodeUnique(s.clients) && CreateStep(rules, s, id, p, scope, refused).1.Done?
    ensures CodeUnique(CreateStep(rules, s, id, p, scope, refused).0.clients) <==> !SpacedTwin(s.clients, id, p.code)
  {
    hide CodeUnique, FindDuplicate, Normalized, Recorded, SpacedTwin;
    CheckedCode(rules, s.clients, CandidateOf(Prepared(rules, p)), scope, None, id, Row(rules, p));
  }

  /** An edited client keeps them apart exactly when it is archived or has no spaced twin. */
  lemma UpdateKeepsCodes(rules: Rules, s: Store, id: string, e: Edit, scope: Option<string>, refused: bool)
    requires CodeUnique(s.clients) && UpdateStep(rules, s, id, e, scope, refused).1.Done?
    ensures CodeUnique(UpdateStep(rules, s, id, e, scope, refused).0.clients)
            <==> s.clients[id].archived || !SpacedTwin(s.clients, id, OrKeepOption(e.code, s.clients[id].code))
  {
    hide CodeUnique, FindDuplicate, Normalized, Recorded, SpacedTwin;
    var changed := Edited(rules, s.clients[id], e);
    if s.clients[id].archived {
      ArchivedUnshared(s.clients, id, changed);
    } else {
      CheckedCode(rules, s.clients, Merged(s.clients[id], e), scope, Some(id), id, changed);
    }
  }

  lemma KeptCodeUnshared(t: Table, id: string, c: Client)
    requires CodeUnique(t) && id in t && c.code == t[id].code && c.archived == t[id].archived
    ensures CodeUnique(t[id := c])
  {
    hide CodeUnique;
    if c.archived {
      ArchivedUnshared(t, id, c);
    } else {
      SameCodeUnshared(t, id, c);
    }
  }

  lemma {:induction false} MergeKeepsCodes(s: Store, primary: string, ids: seq<string>, stamp: string)
    requires CodeUnique(s.clients) && forall id | id in ids :: id in s.clients
    ensures CodeUnique(MergeAll(s, primary, ids, stamp).clients)
  {
    hide CodeUnique, Recorded;
    if ids != [] {
      MergeKeepsCodes(s, primary, ids[..|ids| - 1], stamp);
      var last := ids[|ids| - 1];
      assert last in ids;
      var t := MergeAll(s, primary, ids[..|ids| - 1], stamp);
      ArchivedUnshared(t.clients, last, MergedAway(t.clients[last], primary, stamp));
    }
  }

  lemma DeleteKeepsCodes(s: Store, id: string, scope: Option<string>, refused: bool)
    requires CodeUnique(s.clients)
    ensures CodeUnique(DeleteStep(s, id, scope, refused).0.clients)
  {
    hide CodeApart;
  }

  lemma CompanyKeepsCodes(rules: Rules, s: Store, id: string, p: NewClient, scope: Option<string>, refused: bool)
    requires CodeUnique(s.clients) && p.code == None
    ensures CodeUnique(CreateCompanyStep(rules, s, id, p, scope, refused).0.clients)
  {
    NoCode();
    hide CodeUnique, FindDuplicate, Normalized, AuditedCode;
    NoCodeUnshared(s.clients, id, Row(rules, p));
  }

  lemma CompanyEditKeepsCodes(rules: Rules, s: Store, id: string, name: Option<string>, cnpj: Option<string>,
                              scope: Option<string>, refused: bool)
    requires CodeUnique(s.clients)
    ensures CodeUnique(UpdateCompanyStep(rules, s, id, name, cnpj, scope, refused).0.clients)
  {
    hide CodeUnique, FindDuplicate, Normalized;
    if id in s.clients {
      KeptCodeUnshared(s.clients, id, CompanyEdited(rules, s.clients[id], name, cnpj));
    }
  }

  lemma AutoCreateKeepsCodes(s: Store, id: string, name: string, owner: string, refused: bool)
    requires CodeUnique(s.clients)
    ensures CodeUnique(AutoCreateStep(s, id, name, owner, refused).0.clients)
  {
    NoCode();
    hide CodeUnique, AuditedCode;
    NoCodeUnshared(s.clients, id, ImportedByName(name, owner));
  }

  /** The row makes two active clients share a code: it creates one with a spaced twin, or fills in a code taken. */
  predicate RowShares(rules: Rules, st: Importing, row: ImportRow, scope: Option<string>, env: RowEnv) {
    && row.Payload?
    && match ImportRowStep(rules, st, row, scope, env).1
       case Imported => SpacedTwin(st.store.clients, env.newId, ImportPayload(row.p).code)
       case Updated =>
         var found := FindExisting(rules, IndexBy(st.memory, CnpjKey()), IndexBy(st.memory, CodeKey(rules)), row.p);
         found.Some? && FillOf(found.value, row.p).code.Some?
         && CodeTaken(st.store.clients, found.value.id, FillOf(found.value, row.p).code.value)
       case _ => false
  }

  ghost predicate AllActive(memory: seq<Copy>) {
    forall c | c in memory :: !c.client.archived
  }

  /** Matching the store, and of active clients only. */
  ghost predicate Sound(st: Importing) {
    Faithful(st) && AllActive(st.memory)
  }

  lemma {:induction false} LoadedAreActive(t: Table, order: seq<string>, scope: Option<string>)
    ensures AllActive(Loaded(t, order, scope))
  {
    if order != [] {
      LoadedAreActive(t, order[..|order| - 1], scope);
    }
  }

  lemma UpdateRowStaysSound(rules: Rules, st: Importing, copy: Copy, p: NewClient, scope: Option<string>, refused: bool)
    requires Sound(st) && copy in st.memory
    ensures Sound(UpdateRowStep(rules, st, copy, p, scope, refused).0)
  {
    hide FindDuplicate, FillOf, Recorded, Filled, Faithful;
    var s, f := st.store, FillOf(copy, p);
    CopyMatches(st, copy);
    var changed := Filled(rules, s.clients[copy.id], copy, f);
    FilledKeeps(rules, s.clients[copy.id], copy, f);
    RelearnedIsFaithful(st, Copy(copy.id, changed, true), Recorded(s.audits, copy.id, copy.client.code, changed.code));
    RelearnedIsActive(st.memory, Copy(copy.id, changed, true));
  }

  lemma RelearnedIsActive(memory: seq<Copy>, c: Copy)
    requires AllActive(memory) && !c.client.archived
    ensures AllActive(Relearned(memory, c))
  {
    var r := Relearned(memory, c);
    forall d | d in r ensures !d.client.archived {
      var i :| 0 <= i < |r| && r[i] == d;
      assert memory[i] in memory;
    }
  }

  lemma CreateRowStaysSound(rules: Rules, st: Importing, p: NewClient, scope: Option<string>, env: RowEnv)
    requires Sound(st)
    ensures Sound(CreateRowStep(rules, st, p, scope, env).0)
  {
    RowOf(rules, ImportPayload(p));
    hide FindDuplicate, Row, ImportPayload, Recorded, Faithful;
    var (t, r) := CreateRowStep(rules, st, p, scope, env);
    if r == Imported {
      AddedIsFaithful(st, env.newId, Row(rules, ImportPayload(p)), t.store.audits);
    }
  }

  lemma RowStaysSound(rules: Rules, st: Importing, row: ImportRow, scope: Option<string>, env: RowEnv)
    requires Sound(st)
    ensures Sound(ImportRowStep(rules, st, row, scope, env).0)
  {
    hide Sound, UpdateRowStep, CreateRowStep, FindExisting, IndexBy;
    if row.Payload? {
      FoundIsRemembered(rules, st.memory, row.p);
      var found := FindExisting(rules, IndexBy(st.memory, CnpjKey()), IndexBy(st.memory, CodeKey(rules)), row.p);
      if found.Some? {
        UpdateRowStaysSound(rules, st, found.value, row.p, scope, env.refused);
      } else {
        CreateRowStaysSound(rules, st, row.p, scope, env);
      }
    }
  }

  /** One row keeps codes apart exactly when it is not one that shares. */
  lemma RowKeepsCodes(rules: Rules, st: Importing, row: ImportRow, scope: Option<string>, env: RowEnv)
    requires Sound(st) && CodeUnique(st.store.clients)
    ensures CodeUnique(ImportRowStep(rules, st, row, scope, env).0.store.clients)
            <==> !RowShares(rules, st, row, scope, env)
  {
    hide CodeUnique, FindExisting, IndexBy, FillOf, CreateStep, ImportPayload, SpacedTwin, CodeTaken, Faithful,
         UpdateRowStep;
    if row.Payload? {
      FoundIsRemembered(rules, st.memory, row.p);
      var found := FindExisting(rules, IndexBy(st.memory, CnpjKey()), IndexBy(st.memory, CodeKey(rules)), row.p);
      if found.Some? {
        CopyMatches(st, found.value);
        if UpdateRowStep(rules, st, found.value, row.p, scope, env.refused).1 == Updated {
          FillingCodeSharesIt(rules, st, found.value, row.p, scope, env.refused);
        } else {
          NotUpdated(rules, st, found.value, row.p, scope, env.refused);
        }
      } else if CreateStep(rules, st.store, env.newId, ImportPayload(row.p), scope, env.refused).1.Done? {
        CreateKeepsCodes(rules, st.store, env.newId, ImportPayload(row.p), scope, env.refused);
      }
    }
  }

  lemma NotUpdated(rules: Rules, st: Importing, copy: Copy, p: NewClient, scope: Option<string>, refused: bool)
    ensures var (t, result) := UpdateRowStep(rules, st, copy, p, scope, refused);
            result != Imported && (result != Updated ==> t == st)
  {
    hide FindDuplicate, FillOf, Filled, Recorded;
  }

  /** A client with a code keeps it through the row. */
  lemma RowKeepsCode(rules: Rules, st: Importing, row: ImportRow, scope: Option<string>, env: RowEnv, id: string)
    requires Sound(st) && id in st.store.clients && AuditedCode(st.store.clients[id].code).Some?
    ensures var t := ImportRowStep(rules, st, row, scope, env).0.store.clients;
            id in t && t[id].code == st.store.clients[id].code && t[id].archived == st.store.clients[id].archived
  {
    hide FindExisting, IndexBy, CreateStep, ImportPayload, Faithful, UpdateRowStep, AuditedCode, CnpjKey, CodeKey;
    if row.Payload? {
      FoundIsRemembered(rules, st.memory, row.p);
      var found := FindExisting(rules, IndexBy(st.memory, CnpjKey()), IndexBy(st.memory, CodeKey(rules)), row.p);
      if found.Some? {
        UpdateKeepsCode(rules, st, found.value, row.p, scope, env.refused, id);
      } else {
        CreateKeepsOthers(rules, st.store, env.newId, ImportPayload(row.p), scope, env.refused, id);
      }
    }
  }

  lemma UpdateKeepsCode(rules: Rules, st: Importing, copy: Copy, p: NewClient, scope: Option<string>, refused: bool,
                        id: string)
    requires Sound(st) && copy in st.memory && id in st.store.clients && AuditedCode(st.store.clients[id].code).Some?
    ensures var t := UpdateRowStep(rules, st, copy, p, scope, refused).0.store.clients;
            id in t && t[id].code == st.store.clients[id].code && t[id].archived == st.store.clients[id].archived
  {
    hide UpdateRowStep, Faithful, Filled, FillOf;
    NotUpdated(rules, st, copy, p, scope, refused);
    CopyMatches(st, copy);
    if UpdateRowStep(rules, st, copy, p, scope, refused).1 == Updated {
      UpdateRowWrites(rules, st, copy, p, scope, refused);
      UpdateFillsOnlyEmpty(rules, st, copy, p, scope, refused);
    }
  }

  lemma CreateKeepsOthers(rules: Rules, s: Store, id: string, p: NewClient, scope: Option<string>, refused: bool,
                          other: string)
    requires other in s.clients
    ensures var t := CreateStep(rules, s, id, p, scope, refused).0;
            other in t.clients && t.clients[other] == s.clients[other]
  {
    hide FindDuplicate, Row, Recorded;
  }

  /** No row separates what shares a code. */
  lemma RowKeepsShared(rules: Rules, st: Importing, row: ImportRow, scope: Option<string>, env: RowEnv)
    requires Sound(st) && !CodeUnique(st.store.clients)
    ensures !CodeUnique(ImportRowStep(rules, st, row, scope, env).0.store.clients)
  {
    hide FindExisting, IndexBy, ImportRowStep, Sound;
    var s := st.store.clients;
    var i, j :| i in s && j in s && i != j && !CodeApart(s[i], s[j]);
    RowKeepsCode(rules, st, row, scope, env, i);
    RowKeepsCode(rules, st, row, scope, env, j);
    hide AuditedCode;
    var t := ImportRowStep(rules, st, row, scope, env).0.store.clients;
    assert !CodeApart(t[i], t[j]);
  }

  /** Row `k` of the import shares a code. */
  predicate SharesAt(rules: Rules, i: Imports, rows: seq<ImportRow>, scope: Option<string>, env: nat -> RowEnv, k: nat)
    requires k < |rows|
  {
    RowShares(rules, ImportRows(rules, i, rows[..k], scope, env).state, rows[k], scope, env(k))
  }

  /** A whole import keeps codes apart exactly when none of its rows shares one. */
  lemma {:induction false} ImportKeepsCodes(rules: Rules, i: Imports, rows: seq<ImportRow>, scope: Option<string>,
                                            env: nat -> RowEnv)
    requires Sound(i.state) && CodeUnique(i.state.store.clients)
    ensures Sound(ImportRows(rules, i, rows, scope, env).state)
    ensures CodeUnique(ImportRows(rules, i, rows, scope, env).state.store.clients)
            <==> forall k | 0 <= k < |rows| :: !SharesAt(rules, i, rows, scope, env, k)
  {
    hide Sound, CodeUnique, ImportRowStep, RowShares;
    if rows != [] {
      var n := |rows| - 1;
      var init := rows[..n];
      ImportKeepsCodes(rules, i, init, scope, env);
      forall k | 0 <= k < n
        ensures SharesAt(rules, i, init, scope, env, k) <==> SharesAt(rules, i, rows, scope, env, k) {
        assert init[..k] == rows[..k];
      }
      var st := ImportRows(rules, i, init, scope, env).state;
      RowStaysSound(rules, st, rows[n], scope, env(n));
      if CodeUnique(st.store.clients) {
        RowKeepsCodes(rules, st, rows[n], scope, env(n));
      } else {
        RowKeepsShared(rules, st, rows[n], scope, env(n));
      }
      assert SharesAt(rules, i, rows, scope, env, n) <==> RowShares(rules, st, rows[n], scope, env(n));
      hide ImportRows;
    }
  }

  ghost predicate OpShares(rules: Rules, s: Store, op: Op) {
    match op
    case Create(id, p, scope, refused) =>
      CreateStep(rules, s, id, p, scope, refused).1.Done? && SpacedTwin(s.clients, id, p.code)
    case Update(id, e, scope, refused) =>
      UpdateStep(rules, s, id, e, scope, refused).1.Done? && !s.clients[id].archived
      && SpacedTwin(s.clients, id, OrKeepOption(e.code, s.clients[id].code))
    case ImportClients(order, rows, scope, env) =>
      exists k | 0 <= k < |rows| :: SharesAt(rules, ImportStart(s, order, scope), rows, scope, env, k)
    case _ => false
  }

  /** Creating, editing and importing keep codes apart exactly when they do not share one; every other route always
      does. */
  lemma StepKeepsCodes(rules: Rules, s: Store, op: Op)
    requires CodeUnique(s.clients)
    ensures CodeUnique(Step(rules, s, op).clients) <==> !OpShares(rules, s, op)
  {
    hide CodeUnique, CreateStep, UpdateStep, CreateCompanyStep, UpdateCompanyStep, AutoCreateStep, ImportRows,
         ImportStart,
         DeleteStep, CompanyPayload, SpacedTwin, SharesAt, MergeAll, Distinct;
    match op
    case Create(id, p, scope, refused) =>
      RefusedChangesNothing(rules, s, op);
      if CreateStep(rules, s, id, p, scope, refused).1.Done? {
        CreateKeepsCodes(rules, s, id, p, scope, refused);
      }
    case Update(id, e, scope, refused) =>
      RefusedChangesNothing(rules, s, op);
      if UpdateStep(rules, s, id, e, scope, refused).1.Done? {
        UpdateKeepsCodes(rules, s, id, e, scope, refused);
      }
    case CreateCompany(id, name, cnpj, region, owner, scope, refused) =>
      CompanyHasNoCode(name, cnpj, region, owner);
      CompanyKeepsCodes(rules, s, id, CompanyPayload(name, cnpj, region, owner), scope, refused);
    case UpdateCompany(id, name, cnpj, scope, refused) =>
      CompanyEditKeepsCodes(rules, s, id, name, cnpj, scope, refused);
    case AutoCreate(id, name, owner, refused) => AutoCreateKeepsCodes(s, id, name, owner, refused);
    case ImportClients(order, rows, scope, env) =>
      StartIsSound(s, order, scope);
      ImportKeepsCodes(rules, ImportStart(s, order, scope), rows, scope, env);
    case Merge(primary, duplicates, stamp, refused) =>
      var ids := Distinct(duplicates, primary);
      if forall id | id in ids :: id in s.clients {
        MergeKeepsCodes(s, primary, ids, stamp);
      }
    case Delete(id, scope, refused) => DeleteKeepsCodes(s, id, scope, refused);
    case DeleteCompany(id, refused) => DeleteKeepsCodes(s, id, None, refused);
  }

  lemma RefusedChangesNothing(rules: Rules, s: Store, op: Op)
    ensures op.Create? && CreateStep(rules, s, op.id, op.p, op.scope, op.refused).1.Refused? ==> Step(rules, s, op) == s
    ensures op.Update? && UpdateStep(rules, s, op.id, op.e, op.scope, op.refused).1.Refused? ==> Step(rules, s, op) == s
  {
    hide FindDuplicate, Row, Edited, Recorded;
  }

  lemma StartIsSound(s: Store, order: seq<string>, scope: Option<string>)
    ensures Sound(ImportStart(s, order, scope).state) && ImportStart(s, order, scope).state.store == s
  {
    LoadedIsFaithful(s, order, scope);
    LoadedAreActive(s.clients, order, scope);
    hide Faithful, AllActive, Loaded;
  }

  ghost predicate ApartAt(rules: Rules, s: Store, ops: seq<Op>, n: nat)
    requires n <= |ops|
  {
    CodeUnique(Run(rules, s, ops[..n]).clients)
  }

  ghost predicate OpSharesAt(rules: Rules, s: Store, ops: seq<Op>, n: nat)
    requires n < |ops|
  {
    OpShares(rules, Run(rules, s, ops[..n]), ops[n])
  }

  /** Codes stay distinct throughout a run of the routes exactly when none of its requests shares one. */
  lemma {:induction false} RunsKeepCodes(rules: Rules, s: Store, ops: seq<Op>)
    requires CodeUnique(s.clients)
    ensures (forall n | 0 <= n <= |ops| :: ApartAt(rules, s, ops, n))
            <==> (forall n | 0 <= n < |ops| :: !OpSharesAt(rules, s, ops, n))
  {
    hide CodeUnique, OpShares, Step;
    assert ops[..0] == [] && ApartAt(rules, s, ops, 0);
    forall n | 0 <= n < |ops| && ApartAt(rules, s, ops, n)
      ensures ApartAt(rules, s, ops, n + 1) <==> !OpSharesAt(rules, s, ops, n)
    {
      assert ops[..n + 1][..n] == ops[..n];
      StepKeepsCodes(rules, Run(rules, s, ops[..n]), ops[n]);
    }
    hide ApartAt, OpSharesAt;
    if forall n | 0 <= n < |ops| :: !OpSharesAt(rules, s, ops, n) {
      AllApart(rules, s, ops, |ops|);
    } else {
      var n :| 0 <= n < |ops| && OpSharesAt(rules, s, ops, n);
      assert !ApartAt(rules, s, ops, n) || !ApartAt(rules, s, ops, n + 1);
    }
  }

  lemma {:induction false} AllApart(rules: Rules, s: Store, ops: seq<Op>, m: nat)
    requires m <= |ops| && ApartAt(rules, s, ops, 0)
    requires forall n | 0 <= n < |ops| && ApartAt(rules, s, ops, n) :: ApartAt(rules, s, ops, n + 1)
    ensures forall n | 0 <= n <= m :: ApartAt(rules, s, ops, n)
  {
    hide ApartAt;
    if m > 0 {
      AllApart(rules, s, ops, m - 1);
      assert ApartAt(rules, s, ops, m - 1);
    }
  }

  // ----- A run after which two clients share a code -----

  function Plain(): Rules {
    Rules(s => s, s => s, s => s)
  }

  /** `p` has a document and no code, `q` a code and no document, their names differ; the row has the document of the
      one and the code of the other. */
  predicate Colliding(rules: Rules, p: NewClient, q: NewClient, row: NewClient) {
    && p.code.None? && Digits(TextOf(p.cnpj)) != "" && Digits(TextOf(row.cnpj)) == Digits(TextOf(p.cnpj))
    && q.cnpj.None? && AuditedCode(q.code).Some? && AuditedCode(q.code) == q.code && AuditedCode(row.code) == q.code
    && rules.text(p.name) != rules.text(q.name)
  }

  function SharingOps(a: string, b: string, p: NewClient, q: NewClient, row: NewClient, env: nat -> RowEnv): seq<Op> {
    [Create(a, p, None, false), Create(b, q, None, false)] + [ImportClients([a, b], [Payload(row)], None, env)]
  }

  /** Three requests, none refused, after which two active clients share a code. */
  lemma ImportSharesCode(rules: Rules, a: string, b: string, p: NewClient, q: NewClient, row: NewClient,
                         env: nat -> RowEnv)
    requires a != b && Colliding(rules, p, q, row) && !env(0).refused
    ensures var ops := SharingOps(a, b, p, q, row, env);
            var s, t := Run(rules, NoClients(), ops[..2]), Run(rules, NoClients(), ops);
            && CodeUnique(s.clients) && !CodeUnique(t.clients)
            && a in s.clients && s.clients[a].region == p.region && a in t.clients
            && (!Blank(p.region) ==>
                  (t.clients[a].region == p.region <==> !Meaningful(row.region) || Trim(row.region) == p.region))
  {
    assert SharingOps(a, b, p, q, row, env)[..2] == [Create(a, p, None, false), Create(b, q, None, false)];
    var s, copy := PairStore(rules, a, b, p, q), Copy(a, Row(rules, p), false);
    var st := Importing(s, [copy, Copy(b, Row(rules, q), false)]);
    PairCreated(rules, a, b, p, q, row);
    PairImported(rules, a, b, p, q, row, env);
    PairMemory(rules, a, b, p, q, row);
    PairUpdated(rules, a, b, p, q, row, env(0).refused);
    PairCodes(rules, a, b, p, q, row);
    RowOf(rules, p);
    assert s.clients[a] == Row(rules, p);
    hide *;
    FillingCodeSharesIt(rules, st, copy, row, None, env(0).refused);
    FirstUpdateOverwrites(rules, st, copy, row, None, env(0).refused);
    UpdateRowKeepsIds(rules, st, copy, row, None, env(0).refused);
  }

  function PairStore(rules: Rules, a: string, b: string, p: NewClient, q: NewClient): Store {
    Store(map[a := Row(rules, p), b := Row(rules, q)], Recorded(Recorded([], a, None, p.code), b, None, q.code))
  }

  lemma UpdateRowKeepsIds(rules: Rules, st: Importing, copy: Copy, p: NewClient, scope: Option<string>, refused: bool)
    ensures forall id | id in st.store.clients ::
            id in UpdateRowStep(rules, st, copy, p, scope, refused).0.store.clients
  {
    hide FindDuplicate, FillOf, Filled, Recorded;
  }

  lemma PairCreated(rules: Rules, a: string, b: string, p: NewClient, q: NewClient, row: NewClient)
    requires a != b && Colliding(rules, p, q, row)
    ensures Run(rules, NoClients(), [Create(a, p, None, false), Create(b, q, None, false)])
            == PairStore(rules, a, b, p, q)
  {
    hide Run, Row, FindDuplicate, Prepared, CandidateOf, Recorded, Step, Colliding;
    var first, second := Create(a, p, None, false), Create(b, q, None, false);
    assert [first, second] == [first] + [second];
    RunOne(rules, NoClients(), first);
    RunLast(rules, NoClients(), [first], second);
    NobodyYet(rules, CandidateOf(Prepared(rules, p)), None);
    Created(rules, NoClients(), a, p);
    SecondIsNew(rules, a, p, q, row);
    Created(rules, Step(rules, NoClients(), first), b, q);
    assert map[a := Row(rules, p)][b := Row(rules, q)] == map[a := Row(rules, p), b := Row(rules, q)];
  }

  lemma SecondIsNew(rules: Rules, a: string, p: NewClient, q: NewClient, row: NewClient)
    requires Colliding(rules, p, q, row)
    ensures FindDuplicate(rules, map[a := Row(rules, p)], CandidateOf(Prepared(rules, q)), None, None).None?
  {
    RowOf(rules, p);
    NoDigits();
    hide Row, Trim, Digits, AuditedCode;
    var candidate := CandidateOf(Prepared(rules, q));
    var n := Normalized(rules, candidate);
    assert n.cnpj == "" && n.name == rules.text(q.name);
    assert !SameIdentity(rules, n, Row(rules, p));
    hide Normalized;
  }

  lemma NoDigits()
    ensures Digits("") == "" && Trim("") == ""
  {
    hide IsSpace;
  }

  lemma PairMemory(rules: Rules, a: string, b: string, p: NewClient, q: NewClient, row: NewClient)
    requires a != b && Colliding(rules, p, q, row)
    ensures var copy, other := Copy(a, Row(rules, p), false), Copy(b, Row(rules, q), false);
            && Loaded(PairStore(rules, a, b, p, q).clients, [a, b], None) == [copy, other]
            && Faithful(Importing(PairStore(rules, a, b, p, q), [copy, other])) && copy in [copy, other]
  {
    hide Row, Colliding, Loaded, Faithful, Recorded;
    RowOf(rules, p);
    RowOf(rules, q);
    var s := PairStore(rules, a, b, p, q);
    assert s.clients[a] == Row(rules, p) && s.clients[b] == Row(rules, q);
    hide PairStore;
    LoadedIsFaithful(s, [a, b], None);
    LoadedPair(s.clients, a, b);
  }

  lemma LoadedPair(t: Table, a: string, b: string)
    requires a != b && a in t && b in t && !t[a].archived && !t[b].archived
    ensures Loaded(t, [a, b], None) == [Copy(a, t[a], false), Copy(b, t[b], false)]
  {
    assert [a, b][..1] == [a] && [a][..0] == [];
    assert Loaded(t, [], None) == [];
    assert Loaded(t, [a], None) == [Copy(a, t[a], false)];
    assert !Remembers([Copy(a, t[a], false)], b);
  }

  lemma PairFound(rules: Rules, a: string, b: string, p: NewClient, q: NewClient, row: NewClient)
    requires a != b && Colliding(rules, p, q, row)
    ensures var copy := Copy(a, Row(rules, p), false);
            var memory := [copy, Copy(b, Row(rules, q), false)];
            FindExisting(rules, IndexBy(memory, CnpjKey()), IndexBy(memory, CodeKey(rules)), row) == Some(copy)
  {
    RowOf(rules, p);
    RowOf(rules, q);
    NoDigits();
    hide Row, Trim, Digits, AuditedCode;
    var copy, other := Copy(a, Row(rules, p), false), Copy(b, Row(rules, q), false);
    var d := Digits(TextOf(p.cnpj));
    assert CnpjKey()(copy) == d && CnpjKey()(other) == "";
    IndexedPair(copy, other, CnpjKey());
    hide IndexBy, CnpjKey;
  }

  lemma IndexedPair(copy: Copy, other: Copy, key: Copy -> string)
    requires key(copy) != "" && key(other) == ""
    ensures IndexBy([copy, other], key) == map[key(copy) := copy]
  {
    assert [copy, other][..1] == [copy] && [copy][..0] == [];
    assert IndexBy([copy], key) == map[key(copy) := copy];
  }

  lemma OneRowImported(rules: Rules, s: Store, order: seq<string>, row: ImportRow, env: nat -> RowEnv)
    ensures Step(rules, s, ImportClients(order, [row], None, env))
            == ImportRowStep(rules, Importing(s, Loaded(s.clients, order, None)), row, None, env(0)).0.store
  {
    var start := ImportStart(s, order, None);
    assert [row][..0] == [];
    assert ImportRows(rules, start, [], None, env) == start;
    assert ImportRows(rules, start, [row], None, env) == ImportTurn(rules, start, row, None, env(0));
    hide ImportRowStep, Loaded;
  }

  lemma PairImported(rules: Rules, a: string, b: string, p: NewClient, q: NewClient, row: NewClient, env: nat -> RowEnv)
    requires a != b && Colliding(rules, p, q, row)
    ensures var copy := Copy(a, Row(rules, p), false);
            var st := Importing(PairStore(rules, a, b, p, q), [copy, Copy(b, Row(rules, q), false)]);
            Run(rules, NoClients(), SharingOps(a, b, p, q, row, env))
            == UpdateRowStep(rules, st, copy, row, None, env(0).refused).0.store
  {
    hide Run, Step, Row, FindExisting, IndexBy, UpdateRowStep, CreateRowStep, Loaded, PairStore, Colliding;
    var op := ImportClients([a, b], [Payload(row)], None, env);
    RunLast(rules, NoClients(), [Create(a, p, None, false), Create(b, q, None, false)], op);
    PairCreated(rules, a, b, p, q, row);
    PairMemory(rules, a, b, p, q, row);
    PairFound(rules, a, b, p, q, row);
    OneRowImported(rules, PairStore(rules, a, b, p, q), [a, b], Payload(row), env);
  }

  lemma PairUpdated(rules: Rules, a: string, b: string, p: NewClient, q: NewClient, row: NewClient, refused: bool)
    requires a != b && Colliding(rules, p, q, row) && !refused
    ensures var copy := Copy(a, Row(rules, p), false);
            var st := Importing(PairStore(rules, a, b, p, q), [copy, Copy(b, Row(rules, q), false)]);
            && UpdateRowStep(rules, st, copy, row, None, refused).1 == Updated
            && FillOf(copy, row).code == q.code
  {
    hide FindDuplicate, FillOf, Row, Colliding, UpdateRowStep;
    var copy := Copy(a, Row(rules, p), false);
    PairFill(rules, a, p, q, row);
    PairChecked(rules, a, b, p, q, row);
    UpdateGoesThrough(rules, Importing(PairStore(rules, a, b, p, q), [copy, Copy(b, Row(rules, q), false)]), copy, row,
                      None);
  }

  lemma UpdateGoesThrough(rules: Rules, st: Importing, copy: Copy, p: NewClient, scope: Option<string>)
    requires FillOf(copy, p).code.Some? && copy.id in st.store.clients
    requires FindDuplicate(rules, st.store.clients, FilledCandidate(copy, FillOf(copy, p)), scope, Some(copy.id)).None?
    ensures UpdateRowStep(rules, st, copy, p, scope, false).1 == Updated
  {
    hide FindDuplicate, FillOf, Filled, Recorded, FilledCandidate;
  }

  lemma PairFill(rules: Rules, a: string, p: NewClient, q: NewClient, row: NewClient)
    requires Colliding(rules, p, q, row)
    ensures FillOf(Copy(a, Row(rules, p), false), row).code == q.code && q.code.Some?
  {
    RowOf(rules, p);
    NoDigits();
    hide Row, Trim, Digits, Meaningful;
  }

  lemma PairChecked(rules: Rules, a: string, b: string, p: NewClient, q: NewClient, row: NewClient)
    requires a != b && Colliding(rules, p, q, row)
    ensures var copy := Copy(a, Row(rules, p), false);
            FindDuplicate(rules, PairStore(rules, a, b, p, q).clients, FilledCandidate(copy, FillOf(copy, row)), None,
                          Some(a)).None?
  {
    RowOf(rules, p);
    RowOf(rules, q);
    NoDigits();
    hide Row, Trim, Digits, AuditedCode, FillOf;
    var copy := Copy(a, Row(rules, p), false);
    var candidate := FilledCandidate(copy, FillOf(copy, row));
    var n := Normalized(rules, candidate);
    assert n.code == "" && n.name == rules.text(p.name) && n.cnpj == Digits(TextOf(p.cnpj));
    hide Normalized, FilledCandidate;
    assert !SameCnpj(n, candidate, Row(rules, q)) && !SameIdentity(rules, n, Row(rules, q));
  }

  lemma PairCodes(rules: Rules, a: string, b: string, p: NewClient, q: NewClient, row: NewClient)
    requires a != b && Colliding(rules, p, q, row)
    ensures var t := PairStore(rules, a, b, p, q).clients;
            CodeUnique(t) && CodeTaken(t, a, q.code.value) && a in t && !t[a].archived
  {
    RowOf(rules, p);
    RowOf(rules, q);
    NoCode();
    hide Row, AuditedCode;
    assert Active(PairStore(rules, a, b, p, q).clients, Some(a), b);
  }

  /** What the request and row schemas ask of a client. */
  predicate Accepted(p: NewClient) {
    && |p.name| >= 2 && |p.city| >= 2 && |p.state| >= 2 && |p.region| >= 2
    && (p.code.Some? ==> p.code.value != "") && (p.fantasyName.Some? ==> |p.fantasyName.value| >= 2)
  }

  function Documented(): NewClient {
    NewClient("aa", "cc", "ss", "rr", None, None, Some("1"), None, "oo")
  }

  function Coded(): NewClient {
    NewClient("bb", "cc", "ss", "rr", None, Some("7"), None, None, "oo")
  }

  function SharingRow(): NewClient {
    NewClient("aa", "cc", "ss", "qq", None, Some("7"), Some("1"), None, "oo")
  }

  /** Three requests the schemas accept, and two clients have code 7; the region of the first is gone as well. */
  lemma TwoClientsOneCode(env: nat -> RowEnv)
    requires !env(0).refused
    ensures Accepted(Documented()) && Accepted(Coded()) && Accepted(SharingRow())
    ensures var ops := SharingOps("A", "B", Documented(), Coded(), SharingRow(), env);
            var s, t := Run(Plain(), NoClients(), ops[..2]), Run(Plain(), NoClients(), ops);
            && CodeUnique(s.clients) && !CodeUnique(t.clients)
            && "A" in s.clients && "A" in t.clients && t.clients["A"].region != s.clients["A"].region
  {
    SamplesCollide();
    SampleRegions();
    SamplesAccepted();
    assert "A"[0] != "B"[0];
    hide *;
    ImportSharesCode(Plain(), "A", "B", Documented(), Coded(), SharingRow(), env);
  }

  lemma SamplesCollide()
    ensures Colliding(Plain(), Documented(), Coded(), SharingRow())
  {
    assert "aa"[0] != "bb"[0];
    hide Trim, Digits, AuditedCode;
    OneDigit("1");
    OneVisible("7");
  }

  lemma OneDigit(s: string)
    requires |s| == 1 && IsDigit(s[0])
    ensures Digits(s) == s
  {
  }

  lemma OneVisible(s: string)
    requires |s| == 1 && '!' <= s[0] <= '~'
    ensures AuditedCode(Some(s)) == Some(s)
  {
    VisibleIsNoSpace(s[0]);
    hide IsSpace, Trim;
    TrimIsTrimmed(s);
  }

  lemma SamplesAccepted()
    ensures Accepted(Documented()) && Accepted(Coded()) && Accepted(SharingRow())
  {
  }

  lemma SampleRegions()
    ensures var before, given := Documented().region, SharingRow().region;
            !Blank(before) && Meaningful(given) && Trim(given) != before
  {
    assert "qq"[0] != "rr"[0];
    hide Trim, Blank, Meaningful;
    TwoVisible("qq");
    TwoVisible("rr");
  }

  lemma TwoVisible(s: string)
    requires |s| == 2 && '!' <= s[0] <= '~' && '!' <= s[1] <= '~'
    ensures Trim(s) == s && !Blank(s) && Meaningful(s)
  {
    VisibleIsNoSpace(s[0]);
    VisibleIsNoSpace(s[1]);
    hide IsSpace, Trim;
    TrimIsTrimmed(s);
  }
}
