/** What the clean-up of legacy duplicates (`apps/api/src/scripts/erpFixLegacyDuplicates.ts`) looks at and what it
    writes, column by column. */
module CleanupAnswers {
  import opened Text
  import opened DuplicateGroups
  import opened LegacyCleanup
  import opened Grouping

  // ----- What puts two clients in one group -----

  /** A code counts unless it is blank or marked as merged; white space and leading zeros do not. `n` zeros go. */
  predicate ReadsAs(code: Option<string>, n: nat, text: string) {
    && code.Some? && !IsNeutralizedCode(code.value)
    && DropsZeros(Trim(code.value), n) && text == Trim(code.value)[n..] && text != ""
  }

  ghost predicate Reads(code: Option<string>, text: string) {
    exists n: nat :: ReadsAs(code, n, text)
  }

  /** The strong code of a client is the text its code reads as, or nothing. */
  lemma StrongCodeReads(code: Option<string>, text: string)
    requires text != ""
    ensures StrongCode(code) == text <==> Reads(code, text)
  {
    if code.Some? && !IsNeutralizedCode(code.value) {
      var n := ZerosOf(Trim(code.value));
      StripZerosDrops(Trim(code.value), n);
      NoZerosLeft(code.value);
      forall m: nat | ReadsAs(code, m, text) ensures StrongCode(code) == text {
        StripZerosDrops(Trim(code.value), m);
      }
      hide Trim, StripZeros, IsNeutralizedCode, DropsZeros;
      assert StrongCode(code) == text ==> ReadsAs(code, n, text);
    }
  }

  lemma NoZerosLeft(code: string)
    ensures code == "" ==> StripZeros(Trim(code)) == ""
  {
  }

  lemma {:induction false} ZerosOf(s: string) returns (n: nat)
    ensures DropsZeros(s, n)
  {
    n := 0;
    if LeadsDigit(s, 0) {
      var m := ZerosOf(s[1..]);
      n := m + 1;
      forall i | 0 <= i < n ensures LeadsDigit(s, i) {
        assert i > 0 ==> LeadsDigit(s[1..], i - 1);
      }
      assert !LeadsDigit(s[1..], m);
    }
  }

  /** A document counts exactly when its digits are eleven or fourteen and not all the same. */
  lemma DocumentCounts(value: Option<string>)
    ensures var digits := Digits(TextOf(value));
            && (ValidDocument(value) != "" <==> (|digits| == 11 || |digits| == 14) && exists i, j ::
                  0 <= i < j < |digits| && digits[i] != digits[j])
            && (ValidDocument(value) != "" ==> ValidDocument(value) == digits)
  {
    hide Digits;
    var digits := Digits(TextOf(value));
    if |digits| > 0 && !OneDigitRepeated(digits) {
      var i :| 0 <= i < |digits| && digits[i] != digits[0];
      assert 0 < i;
    }
  }

  /** The document looked at: the normalised one or, failing it, the one typed. */
  function Document(c: Candidate): Option<string> {
    if c.cnpjNormalized == None || c.cnpjNormalized == Some("") then c.cnpj else c.cnpjNormalized
  }

  function City(rules: TextRules, c: Candidate): string {
    if c.cityNormalized == None || c.cityNormalized == Some("") then rules.text(c.city) else c.cityNormalized.value
  }

  /** One name without the prefix, one city, one state. */
  predicate SameIdentity(rules: TextRules, x: Candidate, y: Candidate) {
    rules.text(rules.strip(x.name)) + "|" + City(rules, x) + "|" + x.state
    == rules.text(rules.strip(y.name)) + "|" + City(rules, y) + "|" + y.state
  }

  predicate Legacy(rules: TextRules, c: Candidate) {
    rules.text(ARCHIVED_PREFIX) <= rules.text(c.name)
  }

  predicate SameDocument(x: Candidate, y: Candidate) {
    ValidDocument(Document(x)) != "" && Digits(TextOf(Document(x))) == Digits(TextOf(Document(y)))
  }

  ghost predicate SameCode(x: Candidate, y: Candidate) {
    exists text :: Reads(x.code, text) && Reads(y.code, text)
  }

  /** Two clients are put together exactly when their codes read the same, their valid documents have the same digits,
      or they have one identity and some client of that identity carries the legacy prefix. */
  lemma TogetherExactly(rules: TextRules, clients: seq<Candidate>, x: Candidate, y: Candidate)
    requires x in clients && y in clients
    ensures SharesBucket(rules, clients, x, y) <==>
              || SameCode(x, y) || SameDocument(x, y)
              || (SameIdentity(rules, x, y) && exists z | z in clients :: SameIdentity(rules, z, x) && Legacy(rules, z))
  {
    SameCodeExactly(x, y);
    DocumentCounts(Document(x));
    DocumentCounts(Document(y));
    hide ReadsAs, StrongCode, ValidDocument, Digits, SameCode;
    assert DocumentOf(x) == ValidDocument(Document(x)) && DocumentOf(y) == ValidDocument(Document(y));
    SameDigitsCount(Document(x), Document(y));
    forall z ensures SameIdentity(rules, z, x) <==> NameKey(rules, z) == NameKey(rules, x) {
    }
    assert SameIdentity(rules, x, y) <==> NameKey(rules, x) == NameKey(rules, y);
    forall z ensures Legacy(rules, z) <==> IsLegacy(rules, z) {
    }
    hide NameKey, SameIdentity, IsLegacy, Legacy, DocumentOf;
  }

  lemma SameDigitsCount(a: Option<string>, b: Option<string>)
    ensures Digits(TextOf(a)) == Digits(TextOf(b)) ==> ValidDocument(a) == ValidDocument(b)
  {
  }

  lemma SameCodeExactly(x: Candidate, y: Candidate)
    ensures SameCode(x, y) <==> CodeOf(x) == CodeOf(y) && CodeOf(x) != ""
  {
    hide Reads, StrongCode;
    forall text ensures Reads(x.code, text) <==> StrongCode(x.code) == text != "" {
      ReadsStrongCode(x.code, text);
    }
    forall text ensures Reads(y.code, text) <==> StrongCode(y.code) == text != "" {
      ReadsStrongCode(y.code, text);
    }
    assert CodeOf(x) == StrongCode(x.code) && CodeOf(y) == StrongCode(y.code);
    if CodeOf(x) == CodeOf(y) && CodeOf(x) != "" {
      assert Reads(x.code, CodeOf(x));
    }
  }

  lemma ReadsStrongCode(code: Option<string>, text: string)
    ensures Reads(code, text) <==> StrongCode(code) == text != ""
  {
    if text != "" {
      StrongCodeReads(code, text);
    }
    hide StrongCode, IsNeutralizedCode, Trim, DropsZeros;
  }

  // ----- What the rows end as -----

  function Marked(text: Option<string>, mark: string): Option<string> {
    match text
    case Some(t) => if t == "" then None else Some(t + mark)
    case None => None
  }

  /** The columns the script never touches. */
  predicate OtherColumnsKept(c: Candidate, row: ClientRow) {
    && row.city == c.city && row.cityNormalized == c.cityNormalized && row.state == c.state
    && row.ownerSellerId == c.ownerSellerId && row.erpUpdatedAt == c.erpUpdatedAt && row.createdAt == c.createdAt
  }

  predicate IdentifiersKept(c: Candidate, row: ClientRow) {
    && row.code == c.code && row.cnpj == c.cnpj && row.cnpjNormalized == c.cnpjNormalized
    && row.name == c.name && row.nameNormalized == c.nameNormalized
  }

  predicate MarkedAsMerged(rules: TextRules, stamp: string, primary: string, c: Candidate, row: ClientRow) {
    && row.isArchived && row.archiveReason == Some(CLEANUP_REASON) && row.cnpjNormalized == None
    && row.code == Marked(c.code, "__LEGACY_DUP__" + stamp)
    && row.cnpj == Marked(c.cnpj, " [LEGACY DUP " + primary + "]")
    && row.name == (if Legacy(rules, c) then c.name else ARCHIVED_PREFIX + " " + c.name)
    && row.nameNormalized == Some(rules.text(ARCHIVED_PREFIX + " " + rules.strip(c.name)))
  }

  /** Every column of every loaded client at the end: a merged client is archived with its code and document marked and
      its normalised document empty; nobody else's identifiers change, legacy names end archived, and the primary of a
      merged class of two or more ends unarchived unless its own name is a legacy one. */
  lemma LastRow(rules: TextRules, stamp: string, candidates: seq<Candidate>, c: Candidate)
    requires DistinctIds(candidates) && c in candidates
    ensures var row, g := FinalRow(rules, stamp, candidates, c), ClassOf(rules, candidates, c);
            && g != [] && OtherColumnsKept(c, row)
            && if Loses(rules, candidates, c) then MarkedAsMerged(rules, stamp, ChoosePrimary(rules, g).id, c, row)
               else
                 && IdentifiersKept(c, row)
                 && if Legacy(rules, c) then row.isArchived && row.archiveReason == Some(CLEANUP_REASON)
                    else if |g| > 1 && !Conflicting(g) then !row.isArchived && row.archiveReason == None
                    else row.isArchived == c.isArchived && row.archiveReason == c.archiveReason
  {
    ClassDistinct(rules, candidates, c);
    hide ClassOf, ChoosePrimary, Conflicting, CleanedRow, DistinctIds, OtherColumnsKept, MarkedAsMerged,
         IdentifiersKept;
    var g := ClassOf(rules, candidates, c);
    if Loses(rules, candidates, c) {
      MergedRow(rules, stamp, g, c);
    } else {
      KeptRow(rules, stamp, g, c);
      if Legacy(rules, c) {
        LegacyEndsArchived(rules, stamp, candidates, c);
      } else {
        FlagsOfOthers(rules, stamp, g, c);
      }
    }
  }

  lemma MergedRow(rules: TextRules, stamp: string, g: seq<Candidate>, c: Candidate)
    requires c in g && !Conflicting(g) && c.id != ChoosePrimary(rules, g).id
    ensures var row := CleanedRow(rules, stamp, g, c);
            OtherColumnsKept(c, row) && MarkedAsMerged(rules, stamp, ChoosePrimary(rules, g).id, c, row)
  {
    hide ChoosePrimary, Conflicting, FlagTargets, NeedsFlag, IsLegacy, ArchivedLoser, MarkedAsMerged, OtherColumnsKept,
         Losers;
    var p := ChoosePrimary(rules, g);
    OthersLose(g, c, p);
    LoserColumns(rules, stamp, p, c, RowOf(c));
    LoserColumns(rules, stamp, p, c, Flagged(RowOf(c)));
  }

  lemma OthersLose(g: seq<Candidate>, c: Candidate, p: Candidate)
    requires c in g && c.id != p.id
    ensures Losers(p, g) != []
  {
    assert IsNot(p)(c);
    assert c in Losers(p, g);
  }

  lemma LoserColumns(rules: TextRules, stamp: string, p: Candidate, c: Candidate, row: ClientRow)
    requires OtherColumnsKept(c, row)
    ensures var after := ArchivedLoser(rules, stamp, p, c, row);
            OtherColumnsKept(c, after) && MarkedAsMerged(rules, stamp, p.id, c, after)
  {
    assert forall t: string :: t + "__LEGACY_DUP__" + stamp == t + ("__LEGACY_DUP__" + stamp);
    assert forall t: string :: t + " [LEGACY DUP " + p.id + "]" == t + (" [LEGACY DUP " + p.id + "]");
  }

  lemma KeptRow(rules: TextRules, stamp: string, g: seq<Candidate>, c: Candidate)
    requires g != [] && (Conflicting(g) || c.id == ChoosePrimary(rules, g).id)
    ensures var row := CleanedRow(rules, stamp, g, c); OtherColumnsKept(c, row) && IdentifiersKept(c, row)
  {
    hide ChoosePrimary, Conflicting, Skipped, NeedsFlag, IsLegacy, ArchivedLoser;
  }

  lemma FlagsOfOthers(rules: TextRules, stamp: string, g: seq<Candidate>, c: Candidate)
    requires c in g && DistinctIds(g) && !Legacy(rules, c) && (Conflicting(g) || c.id == ChoosePrimary(rules, g).id)
    ensures var row := CleanedRow(rules, stamp, g, c);
            if |g| > 1 && !Conflicting(g) then !row.isArchived && row.archiveReason == None
            else row.isArchived == c.isArchived && row.archiveReason == c.archiveReason
  {
    PrimaryInGroup(rules, g);
    var p := ChoosePrimary(rules, g);
    if c.id == p.id {
      SameId(g, c, p);
    }
    if |g| > 1 {
      HasLoser(rules, g);
    } else {
      assert g == [c];
      AloneIsSkipped(rules, c);
    }
    hide ChoosePrimary, Conflicting, Skipped, ArchivedLoser, DistinctIds;
  }

  lemma AloneIsSkipped(rules: TextRules, c: Candidate)
    requires !Legacy(rules, c)
    ensures Skipped(rules, [c])
  {
    PrimaryInGroup(rules, [c]);
    FilterNone([c], IsNot(c));
    FilterNone([c], Flaggable(rules));
    hide ChoosePrimary;
  }

  /** Loaded again, a merged client has no strong code, and the digits of its document are followed by those of the
      primary's id: by its code and document alone the next run leaves it alone, unless those digits make up a document
      again. */
  lemma MergedIsNotRegrouped(rules: TextRules, stamp: string, primary: string, c: Candidate, row: ClientRow,
                             again: Candidate)
    requires MarkedAsMerged(rules, stamp, primary, c, row) && RowOf(again) == row
    ensures CodeOf(again) == ""
    ensures Digits(TextOf(Document(again))) == if TextOf(c.cnpj) == "" then ""
            else Digits(c.cnpj.value) + Digits(primary)
  {
    MarkIsFound(TextOf(c.code), stamp);
    DocumentDigits(TextOf(c.cnpj), primary);
    hide Contains, Digits, ARCHIVED_PREFIX, Legacy;
  }

  lemma MarkIsFound(code: string, stamp: string)
    ensures IsNeutralizedCode(code + ("__LEGACY_DUP__" + stamp))
  {
    var s := code + ("__LEGACY_DUP__" + stamp);
    assert s[|code|..] == "__LEGACY_DUP__" + stamp;
    assert Contains(s, "__LEGACY_DUP__");
  }

  lemma DocumentDigits(cnpj: string, primary: string)
    ensures Digits(cnpj + (" [LEGACY DUP " + primary + "]")) == Digits(cnpj) + Digits(primary) && Digits("") == ""
  {
    assert " [LEGACY DUP "[0] == ' ';
    NoDigitsIn(" [LEGACY DUP ");
    NoDigitsIn("]");
    NoDigitsIn("");
    hide Digits;
    DigitsBetween(cnpj, " [LEGACY DUP ", primary, "]");
  }

  lemma DigitsBetween(a: string, before: string, b: string, after: string)
    requires Digits(before) == "" && Digits(after) == ""
    ensures Digits(a + (before + b + after)) == Digits(a) + Digits(b)
  {
    hide Digits;
    DigitsJoin(a, before + b + after);
    DigitsJoin(before + b, after);
    DigitsJoin(before, b);
  }

  lemma {:induction false} NoDigitsIn(s: string)
    requires forall i | 0 <= i < |s| :: !IsDigit(s[i])
    ensures Digits(s) == ""
  {
    if s != "" {
      NoDigitsIn(s[1..]);
    }
  }

  // ----- What a group counts and leaves behind -----

  /** Two clients of the group have different strong codes, or different valid documents. */
  predicate TwoIdentities(g: seq<Candidate>) {
    exists c, d | c in g && d in g ::
      || (CodeOf(c) != "" && CodeOf(d) != "" && CodeOf(c) != CodeOf(d))
      || (DocumentOf(c) != "" && DocumentOf(d) != "" && DocumentOf(c) != DocumentOf(d))
  }

  lemma ManyMeansTwo(s: set<string>)
    ensures |s| > 1 <==> exists x, y :: x in s && y in s && x != y
  {
    if |s| > 1 {
      var x :| x in s;
      assert |s - {x}| > 0;
      var y :| y in s - {x};
    }
    if x, y :| x in s && y in s && x != y {
      assert |s - {x} - {y}| >= 0 && |s| == |s - {x}| + 1 == |s - {x} - {y}| + 2;
    }
  }

  lemma ConflictsExactly(g: seq<Candidate>)
    ensures Conflicting(g) <==> TwoIdentities(g)
  {
    ManyMeansTwo(StrongCodes(g));
    ManyMeansTwo(ValidDocuments(g));
    hide CodeOf, DocumentOf;
    if x, y :| x in StrongCodes(g) && y in StrongCodes(g) && x != y {
      var c, d :| c in g && d in g && CodeOf(c) == x && CodeOf(d) == y;
    }
    if x, y :| x in ValidDocuments(g) && y in ValidDocuments(g) && x != y {
      var c, d :| c in g && d in g && DocumentOf(c) == x && DocumentOf(d) == y;
    }
    if c, d :| c in g && d in g && CodeOf(c) != "" && CodeOf(d) != "" && CodeOf(c) != CodeOf(d) {
      assert CodeOf(c) in StrongCodes(g) && CodeOf(d) in StrongCodes(g);
    }
    if c, d :| c in g && d in g && DocumentOf(c) != "" && DocumentOf(d) != "" && DocumentOf(c) != DocumentOf(d) {
      assert DocumentOf(c) in ValidDocuments(g) && DocumentOf(d) in ValidDocuments(g);
    }
  }

  /** A legacy name that is not archived, or archived for another reason. */
  predicate Outdated(rules: TextRules, c: Candidate) {
    Legacy(rules, c) && !(c.isArchived && c.archiveReason == Some(CLEANUP_REASON))
  }

  /** The places of the outdated clients. */
  function OutdatedPlaces(rules: TextRules, g: seq<Candidate>): set<nat> {
    set i: nat | i < |g| && Outdated(rules, g[i])
  }

  lemma {:induction false} TargetsAreOutdated(rules: TextRules, g: seq<Candidate>)
    ensures |FlagTargets(rules, g)| == |OutdatedPlaces(rules, g)|
    ensures FlagTargets(rules, g) == [] <==> forall c | c in g :: !Outdated(rules, c)
  {
    hide Outdated, IsLegacy, Flaggable, OutdatedPlaces;
    FlaggableIsOutdated(rules);
    if g == [] {
      NobodyOutdated(rules);
    } else {
      var n := |g| - 1;
      TargetsAreOutdated(rules, g[..n]);
      FilterStep(g, n, Flaggable(rules));
      assert g[..n + 1] == g;
      OneMoreOutdated(rules, g);
      assert forall c :: c in g <==> c in g[..n] || c == g[n];
    }
  }

  lemma FlaggableIsOutdated(rules: TextRules)
    ensures forall c :: Flaggable(rules)(c) <==> Outdated(rules, c)
  {
  }

  lemma NobodyOutdated(rules: TextRules)
    ensures FlagTargets(rules, []) == [] && OutdatedPlaces(rules, []) == {}
  {
  }

  lemma OneMoreOutdated(rules: TextRules, g: seq<Candidate>)
    requires g != []
    ensures var n := |g| - 1;
            |OutdatedPlaces(rules, g)| == |OutdatedPlaces(rules, g[..n])| + (if Outdated(rules, g[n]) then 1 else 0)
  {
    hide Outdated;
    var n := |g| - 1;
    assert OutdatedPlaces(rules, g)
        == if Outdated(rules, g[n]) then OutdatedPlaces(rules, g[..n]) + {n} else OutdatedPlaces(rules, g[..n]);
  }

  /** All but the primary lose. */
  lemma {:induction false} LosersAreTheRest(p: Candidate, g: seq<Candidate>)
    requires DistinctIds(g)
    ensures |Losers(p, g)| == |g| - (if exists c | c in g :: c.id == p.id then 1 else 0)
  {
    if g != [] {
      var n := |g| - 1;
      LosersAreTheRest(p, g[..n]);
      FilterStep(g, n, IsNot(p));
      assert g[..n + 1] == g;
      assert forall c :: c in g <==> c in g[..n] || c == g[n];
      if g[n].id == p.id {
        forall c | c in g[..n] ensures c.id != p.id {
          var i :| 0 <= i < n && g[i] == c;
        }
      }
    }
  }

  /** What one group adds to the summary: nothing when it is one client that is not outdated; otherwise one changed
      group, a conflict when it has two identities, all but the primary archived (or the lone legacy client) when it
      is merged, and every outdated client fixed; a dry run archives and fixes nobody. */
  lemma GroupCounts(rules: TextRules, dryRun: bool, records: Records, g: seq<Candidate>, s: Summary)
    requires g != [] && DistinctIds(g)
    ensures var t := GroupTally(rules, dryRun, records, g, s);
            if |g| == 1 && !Outdated(rules, g[0]) then t == s
            else
              && t.groupsFound == s.groupsFound && t.groupsChanged == s.groupsChanged + 1
              && t.conflictsFound == s.conflictsFound + (if TwoIdentities(g) then 1 else 0)
              && t.archivedFlagFixed == s.archivedFlagFixed + (if dryRun then 0 else |OutdatedPlaces(rules, g)|)
              && t.duplicatesArchived
                 == s.duplicatesArchived + (if dryRun || TwoIdentities(g) then 0 else if |g| == 1 then 1 else |g| - 1)
  {
    ConflictsExactly(g);
    TargetsAreOutdated(rules, g);
    PrimaryInGroup(rules, g);
    var p := ChoosePrimary(rules, g);
    LosersAreTheRest(p, g);
    assert |g| == 1 ==> g == [g[0]] && forall c | c in g :: c == g[0];
    hide ChoosePrimary, Conflicting, TwoIdentities, FlagTargets, Losers, Outdated, OutdatedPlaces, DistinctIds,
         OwnedByAny;
  }

  predicate OnTimelineOf(p: Candidate, e: Record) {
    e.kind == TimelineEvent && e.clientId == Some(p.id) && e.ownerSellerId == p.ownerSellerId
  }

  /** A code or, without one, the id. */
  function CodeOrId(d: Candidate): string {
    if d.code == None || d.code == Some("") then d.id else d.code.value
  }

  lemma {:induction false} LoserEventsTell(p: Candidate, losers: seq<Candidate>, i: nat)
    requires i < |losers|
    ensures var events := LoserEvents(p, losers);
            && |events| == 2 * |losers|
            && OnTimelineOf(p, events[2 * i])
              && events[2 * i].description == MergedInto(losers[i].name, CodeOrId(losers[i]))
            && OnTimelineOf(p, events[2 * i + 1]) && events[2 * i + 1].description == LoserArchived(losers[i].name)
  {
    var n := |losers| - 1;
    var init := LoserEvents(p, losers[..n]);
    if i < n {
      LoserEventsTell(p, losers[..n], i);
    } else if n > 0 {
      LoserEventsTell(p, losers[..n], 0);
    }
    assert LoserEvents(p, losers) == init + EventsFor(p, losers[n]);
  }

  /** Two events on the primary's timeline for every client merged into it, in their order; one for a lone legacy
      client; none from a dry run, a conflict or a group left alone. */
  lemma EventsTell(rules: TextRules, dryRun: bool, g: seq<Candidate>)
    requires g != [] && DistinctIds(g)
    ensures var events, p := GroupEvents(rules, dryRun, g), ChoosePrimary(rules, g);
            if dryRun || TwoIdentities(g) || (|g| == 1 && !Outdated(rules, g[0])) then events == []
            else if |g| == 1
              then |events| == 1 && OnTimelineOf(g[0], events[0]) && events[0].description == SingleArchived
            else events == LoserEvents(p, Losers(p, g))
  {
    ConflictsExactly(g);
    TargetsAreOutdated(rules, g);
    PrimaryInGroup(rules, g);
    var p := ChoosePrimary(rules, g);
    LosersAreTheRest(p, g);
    assert |g| == 1 ==> g == [g[0]] && forall c | c in g :: c == g[0];
    hide ChoosePrimary, Conflicting, TwoIdentities, FlagTargets, Losers, Outdated, DistinctIds, LoserEvents;
  }
}
