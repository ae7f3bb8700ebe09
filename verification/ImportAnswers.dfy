/** What one row of the opportunity import does (`apps/api/src/routes/crudRoutes.ts`), told from the row, the options
    and the deals on file. */
module ImportAnswers {
  import opened Text
  import Grouping
  import opened OpportunityImport

  // ----- Which client a row means -----

  predicate NamedLike(rules: Rules, input: Input, c: Candidate) {
    c.name == rules.lookup(Trim(input.clientNameOrId)) && c.name != ""
  }

  /** The questions the resolver asks, client by client: its id when the row gives a UUID; its document when the row
      gives one; otherwise its name with the row's city if there is one, its name with the row's state if there is
      one, and its name. */
  lemma QuestionsAsked(rules: Rules, input: Input, c: Candidate)
    ensures var tiers, raw, cnpj := Tiers(rules, input), Trim(input.clientNameOrId), Digits(TextOf(input.cnpj));
            var city, state := rules.lookup(TextOf(input.city)), rules.lookup(TextOf(input.state));
            if rules.isUuid(raw) then |tiers| == 1 && (tiers[0](c) <==> c.id == raw)
            else if cnpj != "" then |tiers| == 1 && (tiers[0](c) <==> c.cnpj == cnpj)
            else
              && |tiers| == 1 + (if city != "" then 1 else 0) + (if state != "" then 1 else 0)
              && (tiers[|tiers| - 1](c) <==> NamedLike(rules, input, c))
              && (city != "" ==> (tiers[0](c) <==> NamedLike(rules, input, c) && c.city == city))
              && (state != "" ==> (tiers[|tiers| - 2](c) <==> NamedLike(rules, input, c) && c.state == state))
  {
    hide Trim, Digits;
  }

  predicate Normalised(rules: Rules, c: Candidate, id: string, name: string, city: string, state: string,
                       cnpj: string) {
    && c.id == id && c.name == rules.lookup(name) && c.city == rules.lookup(city) && c.state == rules.lookup(state)
    && c.cnpj == Digits(cnpj)
  }

  /** The client of a row: the index decides when it can; then the database's answer joins the index; without one the
      row has no client, or one is created under its name, without document or place, or, in a preview, invented with
      the row's document and city and kept for rows alike. */
  lemma LocateAnswers(rules: Rules, opts: Options, s: State, row: Row, w: World)
    ensures var (t, located) := Locate(rules, opts, s, row, w);
            var name := Trim(row.clientNameOrId);
            match Resolve(rules, Input(name, row.cnpj, row.city, None), s.index.list)
            case Resolved(c) => t == s && located == Found(c)
            case Ambiguous(_) => t == s && located == Several
            case NotFound =>
              if w.throwsAt == Some(AtLookup) then t == s && located == LookupThrew
              else if w.existing.Some? then
                var e := w.existing.value;
                && located.Found? && t == s.(index := Upserted(s.index, located.client))
                && Normalised(rules, located.client, e.id, e.name, TextOf(e.city), TextOf(e.state), TextOf(e.cnpj))
              else if !opts.createClientIfMissing then t == s && located == Nobody
              else if !opts.dryRun then
                if w.throwsAt == Some(AtClientCreate) then t == s && located == LookupThrew
                else
                  && located.Found? && Normalised(rules, located.client, w.newClientId, name, "N/A", "NA", "")
                  && t == s.(index := Upserted(s.index, located.client), clients := s.clients + {w.newClientId})
              else
                var k := rules.lookup(name) + "|" + Digits(TextOf(row.cnpj)) + "|" + rules.lookup(TextOf(row.city));
                && located.Found?
                && if k in s.previews then t == s && located.client == s.previews[k]
                   else
                     && t == s.(index := Upserted(s.index, located.client), previews := s.previews[k := located.client])
                     && Normalised(rules, located.client, "preview-client-" + NatText(|s.previews| + 1), name,
                                   if row.city == None then "N/A" else row.city.value, "", TextOf(row.cnpj))
  {
    hide Resolve, Upserted, Trim, NatText;
    assert Digits("") == "";
    hide Digits;
  }

  // ----- Which deal counts as the same -----

  /** The query's conditions: the same client and owner, inside the window, and open or of the same stage. */
  predicate Competes(opts: Options, k: DealKey, o: Opportunity) {
    && o.clientId == k.clientId && o.ownerId == k.ownerId && o.recent
    && (if opts.openOnly then o.stage != "ganho" && o.stage != "perdido" else o.stage == k.stage)
  }

  /** The deals looked through: those remembered for the key or, the first time, the table. */
  function Pool(s: State, k: DealKey): seq<Opportunity> {
    if k in s.cache then s.cache[k] else s.opportunities
  }

  /** A deal of the pool with the row's title; what is remembered was compared when it was read. */
  predicate Twin(rules: Rules, opts: Options, s: State, row: Row, k: DealKey, o: Opportunity) {
    rules.title(o.title) == rules.title(row.title) && (k in s.cache || Competes(opts, k, o))
  }

  ghost predicate HasTwin(rules: Rules, opts: Options, s: State, row: Row, k: DealKey) {
    exists o | o in Pool(s, k) :: Twin(rules, opts, s, row, k, o)
  }

  /** The `i`-th deal of the pool is its newest twin; the pool is in order of creation. */
  ghost predicate NewestTwin(rules: Rules, opts: Options, s: State, row: Row, k: DealKey, i: nat) {
    && i < |Pool(s, k)| && Twin(rules, opts, s, row, k, Pool(s, k)[i])
    && forall j | i < j < |Pool(s, k)| :: !Twin(rules, opts, s, row, k, Pool(s, k)[j])
  }

  lemma {:induction false} FilterTwice(list: seq<Opportunity>, p: Opportunity -> bool, q: Opportunity -> bool)
    ensures Grouping.Filter(Grouping.Filter(list, p), q) == Grouping.Filter(list, (o: Opportunity) => p(o) && q(o))
  {
    if list != [] {
      var n := |list| - 1;
      FilterTwice(list[..n], p, q);
      var kept := Grouping.Filter(list[..n], p);
      assert (kept + [list[n]])[..|kept|] == kept;
      Grouping.FilterStep(kept + [list[n]], |kept|, q);
      assert (kept + [list[n]])[..|kept| + 1] == kept + [list[n]];
    }
  }

  lemma {:induction false} LastKept(list: seq<Opportunity>, p: Opportunity -> bool) returns (i: nat)
    ensures var kept := Grouping.Filter(list, p);
            if kept == [] then forall o | o in list :: !p(o)
            else i < |list| && p(list[i]) && kept[|kept| - 1] == list[i] && forall j | i < j < |list| :: !p(list[j])
  {
    i := 0;
    if list != [] {
      var n := |list| - 1;
      if p(list[n]) {
        i := n;
      } else {
        i := LastKept(list[..n], p);
      }
    }
  }

  /** The duplicate found is the newest twin, and there is none exactly when no deal is a twin. */
  lemma FindsNewestTwin(rules: Rules, opts: Options, s: State, row: Row, k: DealKey) returns (i: nat)
    requires opts.dedupe
    ensures var found := Newest(rules, row.title, Remembered(opts, s, k).cache[k]);
            && (found == None <==> !HasTwin(rules, opts, s, row, k))
            && (found.Some? ==> NewestTwin(rules, opts, s, row, k, i) && found.value == Pool(s, k)[i])
  {
    var p := TwinOf(rules, opts, s, row, k);
    i := LastKept(Pool(s, k), p);
    SameList(rules, opts, s, row, k);
    hide Twin, Grouping.Filter;
    var kept := Grouping.Filter(Pool(s, k), p);
    if kept != [] {
      assert kept[|kept| - 1] in kept;
    }
  }

  lemma SameList(rules: Rules, opts: Options, s: State, row: Row, k: DealKey)
    requires opts.dedupe
    ensures var kept := Grouping.Filter(Pool(s, k), TwinOf(rules, opts, s, row, k));
            Newest(rules, row.title, Remembered(opts, s, k).cache[k]) == if kept == [] then None
              else Some(kept[|kept| - 1])
  {
    hide Grouping.Filter, TwinOf, Titled, Comparable;
    if k in s.cache {
      CachedTwins(rules, opts, s, row, k);
    } else {
      FreshTwins(rules, opts, s, row, k);
    }
  }

  function TwinOf(rules: Rules, opts: Options, s: State, row: Row, k: DealKey): Opportunity -> bool {
    (o: Opportunity) => Twin(rules, opts, s, row, k, o)
  }

  lemma CachedTwins(rules: Rules, opts: Options, s: State, row: Row, k: DealKey)
    requires k in s.cache
    ensures Grouping.Filter(s.cache[k], Titled(rules, row.title))
            == Grouping.Filter(s.cache[k], TwinOf(rules, opts, s, row, k))
  {
    Grouping.FilterSame(s.cache[k], Titled(rules, row.title), TwinOf(rules, opts, s, row, k));
  }

  lemma FreshTwins(rules: Rules, opts: Options, s: State, row: Row, k: DealKey)
    requires k !in s.cache
    ensures Grouping.Filter(Grouping.Filter(s.opportunities, Comparable(opts, k)), Titled(rules, row.title))
            == Grouping.Filter(s.opportunities, TwinOf(rules, opts, s, row, k))
  {
    FilterTwice(s.opportunities, Comparable(opts, k), Titled(rules, row.title));
    Grouping.FilterSame(s.opportunities, (o: Opportunity) => Comparable(opts, k)(o) && Titled(rules, row.title)(o),
                        TwinOf(rules, opts, s, row, k));
    hide Grouping.Filter;
  }

  // ----- What the write does -----

  /** The deal as an update leaves it: its stage, every column the row gives and its notes are the row's, its owner too
      unless a seller imports over another seller's deal; client, title and the rest stay. */
  predicate UpdatedBy(opts: Options, o: Opportunity, k: DealKey, row: Row, now: string, n: Opportunity) {
    && n.id == o.id && n.clientId == o.clientId && n.title == o.title && n.recent == o.recent && n.stage == k.stage
    && n.ownerId == (if opts.seller.Some? && opts.seller.value != o.ownerId then o.ownerId else k.ownerId)
    && n.columns.Keys == o.columns.Keys + row.columns.Keys
    && (forall c | c in n.columns :: n.columns[c] == if c in row.columns then row.columns[c] else o.columns[c])
    && n.notes == (if row.notes == None || row.notes == Some("") then o.notes
                   else if o.notes == None || o.notes == Some("") then Some("[Import " + now + "] " + row.notes.value)
                   else Some(o.notes.value + "\n\n" + "[Import " + now + "] " + row.notes.value))
  }

  /** Only rows with the id change. */
  predicate ChangesOnly(opts: Options, before: seq<Opportunity>, after: seq<Opportunity>, id: string, k: DealKey,
                        row: Row,
                        now: string)
  {
    && |after| == |before|
    && forall i | 0 <= i < |before| ::
         if before[i].id == id then UpdatedBy(opts, before[i], k, row, now, after[i]) else after[i] == before[i]
  }

  predicate AppendsRow(before: seq<Opportunity>, after: seq<Opportunity>, id: string, k: DealKey, row: Row) {
    && |after| == |before| + 1 && after[..|before|] == before
    && var n := after[|before|];
       && n.id == id && n.clientId == k.clientId && n.ownerId == k.ownerId && n.stage == k.stage && n.title == row.title
       && n.recent && n.columns == row.columns && n.notes == row.notes
  }

  /** The database throws while the deals of the key are read. */
  predicate ThrowsReading(opts: Options, s: State, k: DealKey, w: World) {
    opts.dedupe && k !in s.cache && w.throwsAt == Some(AtDedupe)
  }

  /** The write, whatever the row, the options and the deals on file: a twin is ignored or, under upsert, its newest is
      changed and nothing else; without a twin the row is appended. A preview reports the same and changes nothing. */
  lemma WriteAnswers(rules: Rules, opts: Options, s: State, row: Row, k: DealKey, w: World)
    ensures var (t, written) := Write(rules, opts, s, row, k, w);
            && (ThrowsReading(opts, s, k, w) ==> written == WriteThrew)
            && (!ThrowsReading(opts, s, k, w) ==>
                  if opts.dedupe && HasTwin(rules, opts, s, row, k) && opts.mode == Skip then
                    written == Result(Ignored(Duplicate)) && t.opportunities == s.opportunities
                  else if !opts.dryRun && w.throwsAt == Some(AtWrite) then
                    written == WriteThrew && t.opportunities == s.opportunities
                  else if opts.dedupe && HasTwin(rules, opts, s, row, k) then
                    && written == Result(Updated)
                    && if opts.dryRun then t.opportunities == s.opportunities
                       else exists i: nat :: NewestTwin(rules, opts, s, row, k, i)
                                             && ChangesOnly(opts, s.opportunities, t.opportunities, Pool(s, k)[i].id,
                                                            k, row, w.now)
                  else if opts.dryRun then written == Result(Created) && t.opportunities == s.opportunities
                  else if k.clientId !in s.clients then written == WriteThrew && t.opportunities == s.opportunities
                  else
                    && written == Result(Created)
                    && AppendsRow(s.opportunities, t.opportunities, w.newOpportunityId, k, row))
  {
    var i: nat := 0;
    if opts.dedupe {
      i := FindsNewestTwin(rules, opts, s, row, k);
    }
    forall id
      ensures ChangesOnly(opts, s.opportunities, Refreshed(opts, s.opportunities, id, k, row, w.now), id, k, row,
                          w.now) {
      RefreshChanges(opts, s.opportunities, id, k, row, w.now);
    }
    ImportedAppends(s.opportunities, w.newOpportunityId, k, row);
    hide Newest, Grouping.Filter, Refreshed, HasTwin, NewestTwin, ChangesOnly, AppendsRow, Imported, Pool;
  }

  lemma ImportedAppends(list: seq<Opportunity>, id: string, k: DealKey, row: Row)
    ensures AppendsRow(list, list + [Imported(row, k, id)], id, k, row)
  {
  }

  lemma RefreshChanges(opts: Options, list: seq<Opportunity>, id: string, k: DealKey, row: Row, now: string)
    ensures ChangesOnly(opts, list, Refreshed(opts, list, id, k, row, now), id, k, row, now)
  {
    forall i | 0 <= i < |list| ensures UpdatedBy(opts, list[i], k, row, now, Merged(opts, list[i], k, row, now)) {
      MergedIsUpdated(opts, list[i], k, row, now);
    }
    hide UpdatedBy, Merged;
  }

  lemma MergedIsUpdated(opts: Options, o: Opportunity, k: DealKey, row: Row, now: string)
    ensures UpdatedBy(opts, o, k, row, now, Merged(opts, o, k, row, now))
  {
    NotesOfUpdate(o.notes, row.notes, now);
    hide ImportNotes;
  }

  lemma NotesOfUpdate(existing: Option<string>, given: Option<string>, now: string)
    ensures ImportNotes(existing, given, now)
            == (if given == None || given == Some("") then existing
                else if existing == None || existing == Some("") then Some("[Import " + now + "] " + given.value)
                else Some(existing.value + "\n\n" + "[Import " + now + "] " + given.value))
  {
    if given.Some? {
      assert "" + "[Import " + now + "] " + given.value == "[Import " + now + "] " + given.value;
    }
  }

  // ----- What the row reports -----

  /** The checks made before the transaction, each only when those before it pass: a seller importing for another, the
      owner's e-mail and name in conflict, no owner, no such stage, no such status, dates that do not parse or come in
      the wrong order. */
  lemma ProblemsInOrder(row: Row)
    ensures Problem(row) == None <==>
              && !row.forbiddenOwner && row.owner.OwnerIs? && row.stage.Some? && row.statusKnown && row.datesParse
              && row.datesInOrder
    ensures Problem(row) == Some(ForbiddenOwner) <==> row.forbiddenOwner
    ensures Problem(row) == Some(OwnerConflict) <==> !row.forbiddenOwner && row.owner.Conflict?
    ensures Problem(row) == Some(OwnerMissing) <==> !row.forbiddenOwner && row.owner.Unknown?
    ensures Problem(row) == Some(InvalidStage) <==> !row.forbiddenOwner && row.owner.OwnerIs? && row.stage.None?
    ensures Problem(row) == Some(InvalidStatus) <==>
              !row.forbiddenOwner && row.owner.OwnerIs? && row.stage.Some? && !row.statusKnown
    ensures Problem(row) == Some(InvalidDate) <==>
              && !row.forbiddenOwner && row.owner.OwnerIs? && row.stage.Some? && row.statusKnown
              && !(row.datesParse && row.datesInOrder)
  {
  }

  /** The client's key, the row's owner and its stage. */
  predicate KeyFor(row: Row, c: Candidate, k: DealKey) {
    k.clientId == c.id && row.owner == OwnerIs(k.ownerId) && row.stage == Some(k.stage)
  }

  /** One row: a problem of its own fails it with that reason and no other change; an ambiguous client, no client and a
      throw fail it with theirs and leave both tables as they were; otherwise it reports what the write for its client
      answers and leaves the state the write leaves. */
  lemma RowAnswers(rules: Rules, opts: Options, s: State, row: Row, w: World)
    ensures var (t, outcome) := RowStep(rules, opts, s, row, w);
            match Problem(row)
            case Some(reason) => t == s && outcome == Failed(reason)
            case None =>
              var (u, located) := Locate(rules, opts, s, row, w);
              match located
              case Several =>
                outcome == Failed(if w.throwsAt == Some(AtCommit) then UnexpectedError else ClientAmbiguous)
              case Nobody => outcome == Failed(if w.throwsAt == Some(AtCommit) then UnexpectedError else ClientMissing)
              case LookupThrew => outcome == Failed(UnexpectedError)
              case Found(c) =>
                forall k | KeyFor(row, c, k) ::
                  var (v, written) := Write(rules, opts, u, row, k, w);
                  if written.WriteThrew? || w.throwsAt == Some(AtCommit)
                  then outcome == Failed(UnexpectedError) && t.clients == s.clients
                    && t.opportunities == s.opportunities
                  else outcome == written.outcome && t == v
  {
    hide Locate, Write;
    if Problem(row).None? {
      var (u, located) := Locate(rules, opts, s, row, w);
      match located
      case Found(c) =>
        forall k | KeyFor(row, c, k) ensures k == KeyOf(row, c) {
        }
      case _ =>
    }
  }
}
