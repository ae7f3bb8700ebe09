/** The register itself: the tables and the routes that change them (`apps/api/src/routes/crudRoutes.ts`). */
module ClientRoutes {
  import opened Text
  import opened ClientRegistry
  import opened ClientRecords

  class ClientRegister {
    const rules: Rules
    var clients: Table
    var audits: seq<Audit>
    var records: Records

    constructor (rules: Rules)
      ensures this.rules == rules && Now() == Store(map[], []) && records == map[]
    {
      this.rules, clients, audits, records := rules, map[], [], map[];
    }

    function Now(): Store
      reads this
    {
      Store(clients, audits)
    }

    method RecordClientCodeChange(id: string, before: Option<string>, after: Option<string>)
      modifies this`audits
      ensures audits == Recorded(old(audits), id, before, after)
    {
      if AuditedCode(before) != AuditedCode(after) {
        audits := audits + [Audit(id, AuditedCode(before), AuditedCode(after))];
      }
    }

    method PostClient(id: string, p: NewClient, scope: Option<string>, refused: bool) returns (reply: Reply)
      modifies this`clients, this`audits
      ensures (Now(), reply) == CreateStep(rules, old(Now()), id, p, scope, refused)
    {
      hide FindDuplicate, Recorded, Row;
      var duplicate := FindDuplicate(rules, clients, CandidateOf(Prepared(rules, p)), scope, None);
      if duplicate.Some? || refused || id in clients {
        return Refused(409);
      }
      clients := clients[id := Row(rules, p)];
      RecordClientCodeChange(id, None, p.code);
      reply := Done(201);
    }

    method PutClient(id: string, e: Edit, scope: Option<string>, refused: bool) returns (reply: Reply)
      modifies this`clients, this`audits
      ensures (Now(), reply) == UpdateStep(rules, old(Now()), id, e, scope, refused)
    {
      hide FindDuplicate, Recorded, Edited, Merged;
      if id !in clients {
        return Refused(404);
      }
      var current := clients[id];
      if Forbidden(scope, current) {
        return Refused(403);
      }
      var duplicate := FindDuplicate(rules, clients, Merged(current, e), scope, Some(id));
      if duplicate.Some? || refused {
        return Refused(409);
      }
      var changed := Edited(rules, current, e);
      clients := clients[id := changed];
      RecordClientCodeChange(id, current.code, changed.code);
      reply := Done(200);
    }

    /** Deletes the client with its records, or refuses and rolls back. */
    method DeleteClient(id: string, scope: Option<string>, refused: bool) returns (reply: Reply)
      modifies this`clients, this`records
      ensures (Now(), reply) == DeleteStep(old(Now()), id, scope, refused)
      ensures records == if reply.Done? then Without(old(records), DELETED_KINDS, id) else old(records)
    {
      if id !in clients {
        return Refused(404);
      }
      if Forbidden(scope, clients[id]) {
        return Refused(403);
      }
      if (exists a | a in audits :: a.clientId == id) || refused {
        return Refused(500);
      }
      for i := 0 to |DELETED_KINDS|
        invariant records == Without(old(records), DELETED_KINDS[..i], id) && Now() == old(Now())
      {
        DeleteOneKind(old(records), i, id);
        records := Without(records, [DELETED_KINDS[i]], id);
      }
      assert DELETED_KINDS[..|DELETED_KINDS|] == DELETED_KINDS;
      clients := clients - {id};
      reply := Done(204);
    }

    method PostCompany(id: string, name: string, cnpj: Option<string>, region: string, owner: string,
                       scope: Option<string>, refused: bool) returns (reply: Reply)
      modifies this`clients
      ensures (Now(), reply)
              == CreateCompanyStep(rules, old(Now()), id, CompanyPayload(name, cnpj, region, owner), scope, refused)
    {
      hide FindDuplicate, Row, CompanyPayload;
      var p := CompanyPayload(name, cnpj, region, owner);
      var duplicate := FindDuplicate(rules, clients, CandidateOf(Prepared(rules, p)), scope, None);
      if duplicate.Some? || refused || id in clients {
        return Refused(409);
      }
      clients := clients[id := Row(rules, p)];
      reply := Done(201);
    }

    method PutCompany(id: string, name: Option<string>, cnpj: Option<string>, scope: Option<string>, refused: bool)
      returns (reply: Reply)
      modifies this`clients
      ensures (Now(), reply) == UpdateCompanyStep(rules, old(Now()), id, name, cnpj, scope, refused)
    {
      hide FindDuplicate, CompanyEdited;
      if id !in clients {
        return Refused(404);
      }
      var current := clients[id];
      var candidate :=
        Candidate(OrKeep(name, current.name), current.city, current.state, OrKeepOption(cnpj, current.cnpj),
                  current.code);
      var duplicate := FindDuplicate(rules, clients, candidate, scope, Some(id));
      if duplicate.Some? || refused {
        return Refused(409);
      }
      clients := clients[id := CompanyEdited(rules, current, name, cnpj)];
      reply := Done(200);
    }

    /** The six bulk moves of one duplicate. */
    method MoveRecords(duplicate: string, primary: string)
      requires duplicate != primary
      modifies this`records
      ensures records == Repointed(old(records), MOVED_KINDS, duplicate, primary)
    {
      for i := 0 to |MOVED_KINDS|
        invariant records == Repointed(old(records), MOVED_KINDS[..i], duplicate, primary)
      {
        RepointOneKind(old(records), MOVED_KINDS, i, duplicate, primary);
        records := Repointed(records, [MOVED_KINDS[i]], duplicate, primary);
      }
      assert MOVED_KINDS[..|MOVED_KINDS|] == MOVED_KINDS;
    }

    /** One turn of the merge loop. */
    method MergeInto(primary: string, id: string, stamp: string)
      requires id in clients && id != primary
      modifies this
      ensures Now() == MergeOne(old(Now()), primary, id, stamp) && clients.Keys == old(clients).Keys
      ensures records == Repointed(old(records), MOVED_KINDS, id, primary)
    {
      hide MergedAway, Recorded, Repointed;
      MoveRecords(id, primary);
      var duplicate := clients[id];
      var c := MergedAway(duplicate, primary, stamp);
      clients := clients[id := c];
      RecordClientCodeChange(id, duplicate.code, c.code);
    }

    method MergeDuplicates(primary: string, duplicates: seq<string>, stamp: string,
                           refused: bool) returns (reply: Reply)
      modifies this
      ensures (Now(), reply) == MergeStep(old(Now()), primary, duplicates, stamp, refused)
      ensures records == if reply.Done? then Rehomed(old(records), Distinct(duplicates, primary), primary)
              else old(records)
    {
      hide MergeOne, Distinct, Repointed, Rehomed;
      var ids := Distinct(duplicates, primary);
      if ids == [] {
        return Refused(400);
      }
      if primary !in clients || exists id | id in ids :: id !in clients {
        return Refused(404);
      }
      if refused {
        return Refused(500);   // the transaction is rolled back
      }
      NobodyRehomed(records, primary);
      for i := 0 to |ids|
        invariant clients.Keys == old(clients).Keys
        invariant (forall id | id in ids[..i] :: id in old(clients))
                  && Now() == MergeAll(old(Now()), primary, ids[..i], stamp)
        invariant records == Rehomed(old(records), ids[..i], primary)
      {
        var id := ids[i];
        assert ids[..i + 1][..i] == ids[..i];
        RehomeOne(old(records), ids, i, primary);
        MergeInto(primary, id, stamp);
      }
      assert ids[..|ids|] == ids;
      reply := Done(200);
    }

    /** `indexClient`. */
    method IndexClient(c: Copy, byCnpj: map<string, Copy>, byCode: map<string, Copy>)
      returns (withCnpj: map<string, Copy>, withCode: map<string, Copy>)
      ensures withCnpj == Indexed(byCnpj, CnpjKey(), c) && withCode == Indexed(byCode, CodeKey(rules), c)
    {
      hide Digits, Trim;
      withCnpj, withCode := byCnpj, byCode;
      var cnpj, code := CnpjKey()(c), CodeKey(rules)(c);
      if cnpj != "" {
        withCnpj := withCnpj[cnpj := c];
      }
      if code != "" {
        withCode := withCode[code := c];
      }
    }

    /** Both maps cleared and filled again. */
    method Reindex(memory: seq<Copy>) returns (byCnpj: map<string, Copy>, byCode: map<string, Copy>)
      ensures byCnpj == IndexBy(memory, CnpjKey()) && byCode == IndexBy(memory, CodeKey(rules))
    {
      hide Indexed, CnpjKey, CodeKey;
      byCnpj, byCode := map[], map[];
      for i := 0 to |memory|
        invariant byCnpj == IndexBy(memory[..i], CnpjKey()) && byCode == IndexBy(memory[..i], CodeKey(rules))
      {
        assert memory[..i + 1][..i] == memory[..i];
        byCnpj, byCode := IndexClient(memory[i], byCnpj, byCode);
      }
      assert memory[..|memory|] == memory;
    }

    /** One row that matched a remembered client. */
    method UpdateFromRow(copy: Copy, p: NewClient, scope: Option<string>, refused: bool, memory: seq<Copy>)
      returns (after: seq<Copy>, result: RowResult)
      modifies this`clients, this`audits
      ensures (Importing(Now(), after), result)
              == UpdateRowStep(rules, Importing(old(Now()), memory), copy, p, scope, refused)
      ensures result != Updated ==> after == memory
    {
      hide FindDuplicate, FillOf, Filled, Recorded;
      var f := FillOf(copy, p);
      if !HasChanges(f) {
        return memory, Ignored;
      }
      var duplicate := FindDuplicate(rules, clients, FilledCandidate(copy, f), scope, Some(copy.id));
      if duplicate.Some? || refused || copy.id !in clients {
        return memory, Conflict;
      }
      var changed := Filled(rules, clients[copy.id], copy, f);
      clients := clients[copy.id := changed];
      RecordClientCodeChange(copy.id, copy.client.code, changed.code);
      after, result := Relearned(memory, Copy(copy.id, changed, true)), Updated;
    }

    /** One row of the import, with the two maps that index its memory. */
    method ImportRow(row: ImportRow, memory: seq<Copy>, byCnpj: map<string, Copy>, byCode: map<string, Copy>,
                     scope: Option<string>, env: RowEnv)
      returns (after: seq<Copy>, newByCnpj: map<string, Copy>, newByCode: map<string, Copy>, result: RowResult)
      requires byCnpj == IndexBy(memory, CnpjKey()) && byCode == IndexBy(memory, CodeKey(rules))
      modifies this`clients, this`audits
      ensures (Importing(Now(), after), result) == ImportRowStep(rules, Importing(old(Now()), memory), row, scope, env)
      ensures newByCnpj == IndexBy(after, CnpjKey()) && newByCode == IndexBy(after, CodeKey(rules))
    {
      hide FindDuplicate, FindExisting, Indexed, Row, UpdateRowStep, Recorded, ImportPayload, CnpjKey, CodeKey;
      after, newByCnpj, newByCode := memory, byCnpj, byCode;
      match row {
        case Bad => result := Conflict;
        case Skipped => result := Ignored;
        case Payload(p) =>
          var found := FindExisting(rules, byCnpj, byCode, p);
          if found.Some? {
            after, result := UpdateFromRow(found.value, p, scope, env.refused, memory);
            if result == Updated {
              newByCnpj, newByCode := Reindex(after);
            }
          } else {
            var reply := PostClient(env.newId, ImportPayload(p), scope, env.refused);
            if reply.Refused? {
              result := Conflict;
            } else {
              var created := Copy(env.newId, Row(rules, ImportPayload(p)), true);
              after, result := memory + [created], Imported;
              assert after[..|memory|] == memory;
              newByCnpj, newByCode := IndexClient(created, byCnpj, byCode);
            }
          }
      }
    }

    /** `POST /clients/import`: `order` is the order in which the database lists the active clients in scope. */
    method PostClientsImport(order: seq<string>, rows: seq<ImportRow>, scope: Option<string>, env: nat -> RowEnv)
      returns (counts: Counts)
      modifies this`clients, this`audits
      ensures var end := ImportRows(rules, ImportStart(old(Now()), order, scope), rows, scope, env);
              Now() == end.state.store && counts == end.counts
    {
      hide ImportRowStep, Loaded, IndexBy, CnpjKey, CodeKey;
      ghost var start := ImportStart(Now(), order, scope);
      var memory := Loaded(clients, order, scope);
      var byCnpj, byCode := Reindex(memory);
      counts := Counts(0, 0, 0, 0);
      for i := 0 to |rows|
        invariant Imports(Importing(Now(), memory), counts) == ImportRows(rules, start, rows[..i], scope, env)
        invariant byCnpj == IndexBy(memory, CnpjKey()) && byCode == IndexBy(memory, CodeKey(rules))
      {
        assert rows[..i + 1][..i] == rows[..i];
        var result;
        memory, byCnpj, byCode, result := ImportRow(rows[i], memory, byCnpj, byCode, scope, env(i));
        counts := Counted(counts, result);
      }
      assert rows[..|rows|] == rows;
    }
  }
}
