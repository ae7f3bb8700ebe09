/** What the clean-up of legacy duplicates (`apps/api/src/scripts/erpFixLegacyDuplicates.ts`) does to the audit
    trail of the client register: the script writes codes without recording them. */
module AuditedCleanup {
  import opened Text
  import Register = ClientRegistry
  import Script = LegacyCleanup
  import opened DuplicateGroups

  /** The register and the script see the same table; the codes are all that matters here. */
  ghost predicate SameCodes(t: Register.Table, rows: Script.Clients) {
    t.Keys == rows.Keys && forall id | id in t :: t[id].code == rows[id].code
  }

  /** Trimmed, the code of the client is the same in the new table. */
  predicate CodeStays(s: Register.Store, t: Register.Table, id: string) {
    id in t && id in s.clients && Register.AuditedCode(t[id].code) == Register.AuditedCode(s.clients[id].code)
  }

  /** Codes written without their rows in the trail: it goes on telling them exactly when none changed. */
  lemma UnauditedWrite(s: Register.Store, t: Register.Table)
    requires Register.Told(s) && t.Keys == s.clients.Keys
    ensures Register.Told(s.(clients := t)) <==> forall id | id in t :: CodeStays(s, t, id)
  {
    hide Register.AuditedCode, Register.Chained, Register.Replay;
    var after := s.(clients := t);
    forall id ensures Register.CodeTold(after, id) <==> (id in t ==> CodeStays(s, t, id)) {
      assert Register.CodeTold(s, id);
    }
  }

  /** The code given to a loser, once trimmed, is its old one only when it had none. */
  lemma LoserCode(rules: TextRules, stamp: string, primary: Candidate, c: Candidate, row: Script.ClientRow)
    ensures Register.AuditedCode(Script.ArchivedLoser(rules, stamp, primary, c, row).code)
            == Register.AuditedCode(c.code)
            <==> TextOf(c.code) == ""
  {
    CodeOfLoser(rules, stamp, primary, c, row);
    var code := TextOf(c.code);
    if code != "" {
      hide Script.ArchivedLoser;
      MarkIsVisible(stamp);
      LongerCode(code, Mark(stamp));
    } else {
      Register.NoCode();
      EmptyCode(c.code);
      hide *;
    }
  }

  /** What the script puts after the code of a loser. */
  function Mark(stamp: string): string {
    "__LEGACY_DUP__" + stamp
  }

  lemma CodeOfLoser(rules: TextRules, stamp: string, primary: Candidate, c: Candidate, row: Script.ClientRow)
    ensures Script.ArchivedLoser(rules, stamp, primary, c, row).code
            == if TextOf(c.code) != "" then Some(TextOf(c.code) + Mark(stamp)) else None
  {
    var code := TextOf(c.code);
    assert code + "__LEGACY_DUP__" + stamp == code + Mark(stamp);
    hide IsLegacy;
  }

  lemma MarkIsVisible(stamp: string)
    ensures Mark(stamp) != "" && !IsSpace(Mark(stamp)[0])
  {
    assert Mark(stamp)[0] == '_';
    VisibleIsNoSpace('_');
    hide IsSpace;
  }

  lemma LongerCode(code: string, mark: string)
    requires code != "" && mark != "" && !IsSpace(mark[0])
    ensures Register.AuditedCode(Some(code + mark)) != Register.AuditedCode(Some(code))
  {
    TrimGrows(code, mark);
    hide Trim, IsSpace;
  }

  lemma EmptyCode(code: Option<string>)
    requires TextOf(code) == ""
    ensures Register.AuditedCode(code) == None
  {
    hide IsSpace;
  }

  /** Losers apart, the script leaves every code alone. */
  lemma FinalCode(rules: TextRules, stamp: string, candidates: seq<Candidate>, c: Candidate)
    requires c in candidates
    ensures Register.AuditedCode(Script.FinalRow(rules, stamp, candidates, c).code) == Register.AuditedCode(c.code)
            <==> !(Script.Loses(rules, candidates, c) && TextOf(c.code) != "")
  {
    RowCode(rules, stamp, candidates, c);
    var primary := Script.ChoosePrimary(rules, ClassOf(rules, candidates, c));
    hide *;
    LoserCode(rules, stamp, primary, c, Script.RowOf(c));
    LoserCode(rules, stamp, primary, c, Script.Flagged(Script.RowOf(c)));
  }

  /** The code in a client's last row. */
  lemma RowCode(rules: TextRules, stamp: string, candidates: seq<Candidate>, c: Candidate)
    requires c in candidates
    ensures ClassOf(rules, candidates, c) != []
    ensures var code, primary := Script.FinalRow(rules, stamp, candidates, c).code,
            Script.ChoosePrimary(rules, ClassOf(rules, candidates, c));
            if Script.Loses(rules, candidates, c)
            then code == Script.ArchivedLoser(rules, stamp, primary, c, Script.RowOf(c)).code
                 || code == Script.ArchivedLoser(rules, stamp, primary, c, Script.Flagged(Script.RowOf(c))).code
            else code == c.code
  {
    hide ClassOf, Script.ChoosePrimary, Script.Conflicting, Script.NeedsFlag, Script.ArchivedLoser, IsLegacy,
         Script.FlagTargets,
         Script.Losers;
    Script.InOwnClass(rules, candidates, c);
    var g := ClassOf(rules, candidates, c);
    var primary := Script.ChoosePrimary(rules, g);
    if c.id != primary.id {
      IsLoser(primary, g, c);
    }
  }

  lemma IsLoser(primary: Candidate, g: seq<Candidate>, c: Candidate)
    requires c in g && c.id != primary.id
    ensures Script.Losers(primary, g) != []
  {
    assert Script.IsNot(primary)(c);
    assert c in Script.Losers(primary, g);
  }

  lemma LoadedCode(rules: TextRules, stamp: string, candidates: seq<Candidate>, s: Register.Store, t: Register.Table,
                   before: Script.Clients, after: Script.Clients, c: Candidate)
    requires SameCodes(s.clients, before) && SameCodes(t, after) && c in candidates
    requires Script.LoadedFrom(before, candidates) && Script.StoreCleaned(rules, stamp, before, after, candidates)
    ensures c.id in t && (CodeStays(s, t, c.id) <==> !(Script.Loses(rules, candidates, c) && TextOf(c.code) != ""))
  {
    assert Script.Shows(before, c, Script.RowOf(c));
    assert Script.ClientFinal(rules, stamp, after, candidates, c);
    hide Script.FinalRow, Register.AuditedCode, Script.Loses;
    FinalCode(rules, stamp, candidates, c);
  }

  lemma OtherCode(rules: TextRules, stamp: string, candidates: seq<Candidate>, s: Register.Store, t: Register.Table,
                  before: Script.Clients, after: Script.Clients, id: string)
    requires SameCodes(s.clients, before) && SameCodes(t, after) && t.Keys == s.clients.Keys && id in t
    requires Script.StoreCleaned(rules, stamp, before, after, candidates)
    requires forall c | c in candidates :: c.id != id
    ensures CodeStays(s, t, id)
  {
    assert Script.Untouched(before, after, candidates, id);
    hide Register.AuditedCode;
  }

  /** After the clean-up the trail still tells every client's code exactly when no client merged away had one. */
  lemma CleanupKeepsTrail(rules: TextRules, stamp: string, candidates: seq<Candidate>, s: Register.Store,
                          t: Register.Table,
                          before: Script.Clients, after: Script.Clients)
    requires Register.Told(s) && SameCodes(s.clients, before) && SameCodes(t, after)
    requires Script.LoadedFrom(before, candidates) && Script.StoreCleaned(rules, stamp, before, after, candidates)
    ensures Register.Told(s.(clients := t))
            <==> forall c | c in candidates :: !(Script.Loses(rules, candidates, c) && TextOf(c.code) != "")
  {
    SameClients(rules, stamp, candidates, s, t, before, after);
    UnauditedWrite(s, t);
    hide *;
    forall c | c in candidates
      ensures c.id in t && (CodeStays(s, t, c.id) <==> !(Script.Loses(rules, candidates, c) && TextOf(c.code) != "")) {
      LoadedCode(rules, stamp, candidates, s, t, before, after, c);
    }
    forall id | id in t && forall c | c in candidates :: c.id != id ensures CodeStays(s, t, id) {
      OtherCode(rules, stamp, candidates, s, t, before, after, id);
    }
  }

  /** The script adds and removes no client. */
  lemma SameClients(rules: TextRules, stamp: string, candidates: seq<Candidate>, s: Register.Store, t: Register.Table,
                    before: Script.Clients, after: Script.Clients)
    requires SameCodes(s.clients, before) && SameCodes(t, after)
    requires Script.LoadedFrom(before, candidates) && Script.StoreCleaned(rules, stamp, before, after, candidates)
    ensures t.Keys == s.clients.Keys
  {
    hide Script.FinalRow;
    forall id ensures id in before <==> id in after {
      assert Script.Untouched(before, after, candidates, id);
      if c :| c in candidates && c.id == id {
        assert Script.Shows(before, c, Script.RowOf(c));
        assert Script.ClientFinal(rules, stamp, after, candidates, c);
      }
    }
  }

  /** A client created with a code, then archived by the script as a duplicate of anybody: the trail told its code
      before, and no longer does. */
  lemma CodedLoserBreaksTrail(rules: Register.Rules, id: string, p: Register.NewClient, texts: TextRules, stamp: string,
                              primary: Candidate, c: Candidate, row: Script.ClientRow)
    requires TextOf(p.code) != "" && c.code == p.code
    ensures var s := Register.Run(rules, Register.NoClients(), [Register.Create(id, p, None, false)]);
            && Register.Told(s) && id in s.clients && s.clients[id].code == c.code
            && var loser := s.clients[id].(code := Script.ArchivedLoser(texts, stamp, primary, c, row).code);
               !Register.Told(s.(clients := s.clients[id := loser]))
  {
    var create := Register.Create(id, p, None, false);
    hide *;
    var s := Register.Run(rules, Register.NoClients(), [create]);
    OneIsCreated(rules, id, p);
    LoserCode(texts, stamp, primary, c, row);
    var loser := s.clients[id].(code := Script.ArchivedLoser(texts, stamp, primary, c, row).code);
    var t := s.clients[id := loser];
    assert t.Keys == s.clients.Keys;
    UnauditedWrite(s, t);
    StaysUnfolded(s, t, id);
  }

  lemma StaysUnfolded(s: Register.Store, t: Register.Table, id: string)
    requires id in t && id in s.clients
    ensures CodeStays(s, t, id) <==> Register.AuditedCode(t[id].code) == Register.AuditedCode(s.clients[id].code)
  {
  }

  lemma OneIsCreated(rules: Register.Rules, id: string, p: Register.NewClient)
    ensures var s := Register.Run(rules, Register.NoClients(), [Register.Create(id, p, None, false)]);
            Register.Told(s) && id in s.clients && s.clients[id].code == p.code
  {
    hide *;
    var create := Register.Create(id, p, None, false);
    NoClientsIsEmpty();
    Register.RunOne(rules, Register.NoClients(), create);
    Register.NobodyYet(rules, Register.CandidateOf(Register.Prepared(rules, p)), None);
    Register.Created(rules, Register.NoClients(), id, p);
    Register.RowOf(rules, p);
    Register.RunsAreGood(rules, [create]);
  }

  lemma NoClientsIsEmpty()
    ensures Register.NoClients() == Register.Store(map[], [])
  {
  }
}
