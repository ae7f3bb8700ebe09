/** The legacy-duplicate clean-up: one primary per class, child records moved to it, losers archived. */
module LegacyCleanup {
  import opened Text
  import opened Grouping
  import opened StableSort
  import opened Chains
  import opened DuplicateGroups

  // ----- The store -----

  datatype ClientRow = ClientRow(
    code: Option<string>,
    cnpj: Option<string>,
    cnpjNormalized: Option<string>,
    name: string,
    nameNormalized: Option<string>,
    city: string,
    cityNormalized: Option<string>,
    state: string,
    ownerSellerId: string,
    isArchived: bool,
    archiveReason: Option<string>,
    erpUpdatedAt: Option<int>,
    createdAt: int)

  function RowOf(c: Candidate): ClientRow {
    ClientRow(c.code, c.cnpj, c.cnpjNormalized, c.name, c.nameNormalized, c.city, c.cityNormalized, c.state,
              c.ownerSellerId, c.isArchived, c.archiveReason, c.erpUpdatedAt, c.createdAt)
  }

  datatype Kind = Activity | Opportunity | TimelineEvent | Contact | AgendaEvent | AgendaStop

  /** The three texts the script writes, and any other. */
  datatype Description =
    | MergedInto(name: string, codeOrId: string)
    | LoserArchived(name: string)
    | SingleArchived
    | Other(text: string)

  datatype Record = Record(kind: Kind, clientId: Option<string>, ownerSellerId: string, description: Description)

  type Records = map<nat, Record>

  type Clients = map<string, ClientRow>

  const CLEANUP_REASON := "legacy_duplicate_cleanup"

  // ----- Choosing the primary -----

  function Recent(c: Candidate): int {
    if c.erpUpdatedAt.Some? then c.erpUpdatedAt.value else c.createdAt
  }

  predicate Visible(rules: TextRules, c: Candidate) {
    !c.isArchived && !IsLegacy(rules, c)
  }

  /** The comparator ranks `a` no worse than `b`. */
  predicate RanksBefore(rules: TextRules, a: Candidate, b: Candidate) {
    if Visible(rules, a) != Visible(rules, b) then Visible(rules, a)
    else if IsLegacy(rules, a) != IsLegacy(rules, b) then !IsLegacy(rules, a)
    else if a.activities != b.activities then a.activities > b.activities
    else if a.opportunities != b.opportunities then a.opportunities > b.opportunities
    else Recent(a) >= Recent(b)
  }

  function Ranking(rules: TextRules): (Candidate, Candidate) -> bool {
    (a, b) => RanksBefore(rules, a, b)
  }

  function ChoosePrimary(rules: TextRules, group: seq<Candidate>): Candidate
    requires group != []
  {
    Sort(Ranking(rules), group)[0]
  }

  /** The primary is the first of the best-ranked clients of its group; in particular a visible client
      wins over every archived or legacy-named one. */
  lemma PrimaryIsFirstBest(rules: TextRules, group: seq<Candidate>) returns (i: nat)
    requires group != []
    ensures i < |group| && group[i] == ChoosePrimary(rules, group)
    ensures forall j | 0 <= j < |group| :: RanksBefore(rules, group[i], group[j])
    ensures forall j | 0 <= j < i :: !RanksBefore(rules, group[j], group[i])
    ensures (exists j | 0 <= j < |group| :: Visible(rules, group[j])) ==> Visible(rules, group[i])
    ensures (exists j | 0 <= j < |group| :: !IsLegacy(rules, group[j])) ==> !IsLegacy(rules, group[i])
  {
    i := SortHead(Ranking(rules), group);
    forall j | 0 <= j < |group| ensures RanksBefore(rules, group[i], group[j]) {
      assert Ranking(rules)(group[i], group[j]);
    }
    forall j | 0 <= j < i ensures !RanksBefore(rules, group[j], group[i]) {
      assert !Ranking(rules)(group[j], group[i]);
    }
  }

  /** Nobody in the group beats the primary, field by field: being shown first, then a name without the prefix, more
      activities, more opportunities, a later date; among equals the first listed. */
  lemma NobodyBeatsPrimary(rules: TextRules, group: seq<Candidate>) returns (i: nat)
    requires group != []
    ensures i < |group| && group[i] == ChoosePrimary(rules, group)
    ensures forall j | 0 <= j < |group| ::
              var c, p := group[j], group[i];
              var shown, shownP := !c.isArchived && !IsLegacy(rules, c), !p.isArchived && !IsLegacy(rules, p);
              && (shown ==> shownP)
              && (shown == shownP ==>
                    && (!IsLegacy(rules, c) ==> !IsLegacy(rules, p))
                    && (IsLegacy(rules, c) == IsLegacy(rules, p) ==>
                          && c.activities <= p.activities
                          && (c.activities == p.activities ==>
                                && c.opportunities <= p.opportunities
                                && (c.opportunities == p.opportunities ==>
                                      && DateOf(c) <= DateOf(p)
                                      && (DateOf(c) == DateOf(p) ==> i <= j)))))
  {
    i := PrimaryIsFirstBest(rules, group);
    hide ChoosePrimary, IsLegacy;
  }

  /** The last update from the ERP or, without one, the creation. */
  function DateOf(c: Candidate): int {
    match c.erpUpdatedAt
    case Some(t) => t
    case None => c.createdAt
  }

  lemma PrimaryInGroup(rules: TextRules, group: seq<Candidate>)
    requires group != []
    ensures ChoosePrimary(rules, group) in group
  {
    SameElements(group, Sort(Ranking(rules), group));
    assert Sort(Ranking(rules), group)[0] in Sort(Ranking(rules), group);
  }

  // ----- What happens to one group -----

  predicate NeedsFlag(rules: TextRules, c: Candidate) {
    IsLegacy(rules, c) && (!c.isArchived || c.archiveReason != Some(CLEANUP_REASON))
  }

  function Flaggable(rules: TextRules): Candidate -> bool {
    (c: Candidate) => NeedsFlag(rules, c)
  }

  function FlagTargets(rules: TextRules, group: seq<Candidate>): seq<Candidate> {
    Filter(group, Flaggable(rules))
  }

  function Losers(primary: Candidate, group: seq<Candidate>): seq<Candidate> {
    Filter(group, IsNot(primary))
  }

  function StrongCodes(group: seq<Candidate>): set<string> {
    set c | c in group && CodeOf(c) != "" :: CodeOf(c)
  }

  function ValidDocuments(group: seq<Candidate>): set<string> {
    set c | c in group && DocumentOf(c) != "" :: DocumentOf(c)
  }

  /** More than one strong identity: the group is not merged. */
  predicate Conflicting(group: seq<Candidate>) {
    |StrongCodes(group)| > 1 || |ValidDocuments(group)| > 1
  }

  /** Nothing to do. */
  predicate Skipped(rules: TextRules, group: seq<Candidate>)
    requires group != []
  {
    Losers(ChoosePrimary(rules, group), group) == [] && FlagTargets(rules, group) == []
  }

  function Flagged(row: ClientRow): ClientRow {
    row.(isArchived := true, archiveReason := Some(CLEANUP_REASON))
  }

  function ArchivedLoser(rules: TextRules, stamp: string, primary: Candidate, c: Candidate, row: ClientRow): ClientRow {
    row.(isArchived := true,
         archiveReason := Some(CLEANUP_REASON),
         code := if c.code.Some? && c.code.value != "" then Some(c.code.value + "__LEGACY_DUP__" + stamp) else None,
         cnpjNormalized := None,
         cnpj := if c.cnpj.Some? && c.cnpj.value != "" then Some(c.cnpj.value + " [LEGACY DUP " + primary.id + "]")
           else None,
         name := if IsLegacy(rules, c) then c.name else ARCHIVED_PREFIX + " " + c.name,
         nameNormalized := Some(rules.text(ARCHIVED_PREFIX + " " + rules.strip(c.name))))
  }

  /** The row of client `c` of `group` once the group has been cleaned. */
  function CleanedRow(rules: TextRules, stamp: string, group: seq<Candidate>, c: Candidate): ClientRow
    requires group != []
  {
    var primary := ChoosePrimary(rules, group);
    var flagged := if NeedsFlag(rules, c) then Flagged(RowOf(c)) else RowOf(c);
    if Skipped(rules, group) then RowOf(c)
    else if Conflicting(group) then flagged
    else if c.id != primary.id then ArchivedLoser(rules, stamp, primary, c, flagged)
    else if IsLegacy(rules, primary) then flagged
    else flagged.(isArchived := false, archiveReason := None)
  }

  /** Where records of client `c` of `group` belong afterwards. */
  function Home(rules: TextRules, group: seq<Candidate>, c: Candidate): string
    requires group != []
  {
    if Conflicting(group) then c.id else ChoosePrimary(rules, group).id
  }

  // ----- Child records -----

  const KINDS: seq<Kind> := [Activity, Opportunity, TimelineEvent, Contact, AgendaEvent, AgendaStop]

  predicate OwnedBy(r: Record, kinds: set<Kind>, owner: string) {
    r.kind in kinds && r.clientId == Some(owner)
  }

  function Owned(records: Records, kinds: set<Kind>, owner: string): set<nat> {
    set id | id in records && OwnedBy(records[id], kinds, owner)
  }

  function Repointed(records: Records, kinds: set<Kind>, from: string, to: string): Records {
    map id | id in records :: if OwnedBy(records[id], kinds, from) then records[id].(clientId := Some(to))
      else records[id]
  }

  lemma RepointMore(records: Records, kinds: set<Kind>, k: Kind, from: string, to: string)
    requires from != to && k !in kinds
    ensures Repointed(Repointed(records, kinds, from, to), {k}, from, to) == Repointed(records, kinds + {k}, from, to)
    ensures |Owned(records, kinds, from)| + |Owned(Repointed(records, kinds, from, to), {k}, from)|
            == |Owned(records, kinds + {k}, from)|
  {
    var before, later := Owned(records, kinds, from), Owned(Repointed(records, kinds, from, to), {k}, from);
    assert before !! later && before + later == Owned(records, kinds + {k}, from);
  }

  function KindSet(n: nat): set<Kind>
    requires n <= |KINDS|
  {
    set i | 0 <= i < n :: KINDS[i]
  }

  /** The records of all `ids` now belong to `to`; any record created meanwhile is a timeline event of `to`. */
  ghost predicate RecordMoved(before: Records, after: Records, ids: set<string>, to: string, id: nat) {
    && (id in before ==> id in after && after[id] == MovedRecord(before[id], ids, to))
    && (id in after && id !in before ==> after[id].kind == TimelineEvent && after[id].clientId == Some(to))
  }

  function MovedRecord(r: Record, ids: set<string>, to: string): Record {
    if r.clientId.Some? && r.clientId.value in ids then r.(clientId := Some(to)) else r
  }

  ghost predicate RecordsMoved(before: Records, after: Records, ids: set<string>, to: string) {
    forall id :: RecordMoved(before, after, ids, to, id)
  }

  function OwnedByAny(records: Records, ids: set<string>): set<nat> {
    set id | id in records && records[id].clientId.Some? && records[id].clientId.value in ids
  }

  lemma MoveOneMore(before: Records, mid: Records, ids: set<string>, to: string, from: string)
    requires RecordsMoved(before, mid, ids, to) && from !in ids && from != to
    ensures RecordsMoved(before, Repointed(mid, KindSet(6), from, to), ids + {from}, to)
    ensures |OwnedByAny(before, ids)| + |Owned(mid, KindSet(6), from)| == |OwnedByAny(before, ids + {from})|
  {
    var after := Repointed(mid, KindSet(6), from, to);
    forall id ensures RecordMoved(before, after, ids + {from}, to, id) {
      assert RecordMoved(before, mid, ids, to, id);
      if id in mid {
        AnyKind(mid[id].kind);
      }
    }
    forall id ensures id in Owned(mid, KindSet(6), from) <==> id in OwnedByAny(before, {from}) {
      assert RecordMoved(before, mid, ids, to, id);
      if id in mid {
        AnyKind(mid[id].kind);
      }
    }
    assert Owned(mid, KindSet(6), from) == OwnedByAny(before, {from});
    assert OwnedByAny(before, ids) !! OwnedByAny(before, {from});
    assert OwnedByAny(before, ids + {from}) == OwnedByAny(before, ids) + OwnedByAny(before, {from});
  }

  lemma AnyKind(k: Kind)
    ensures k in KindSet(6)
  {
    assert KINDS[0] == Activity && KINDS[1] == Opportunity && KINDS[2] == TimelineEvent
        && KINDS[3] == Contact && KINDS[4] == AgendaEvent && KINDS[5] == AgendaStop;
  }

  lemma CreateKeepsMoved(before: Records, mid: Records, ids: set<string>, to: string, key: nat, event: Record)
    requires RecordsMoved(before, mid, ids, to) && key !in mid
    requires event.kind == TimelineEvent && event.clientId == Some(to)
    ensures RecordsMoved(before, mid[key := event], ids, to)
  {
    var after := mid[key := event];
    forall id ensures RecordMoved(before, after, ids, to, id) {
      assert RecordMoved(before, mid, ids, to, id);
    }
  }

  // ----- Counters -----

  datatype Summary = Summary(groupsFound: nat, groupsChanged: nat, conflictsFound: nat, relationshipsMoved: nat,
                             duplicatesArchived: nat, archivedFlagFixed: nat)

  /** The clients of a group whose records move: all but the primary, unless the group is refused. */
  ghost function MovedIds(rules: TextRules, dryRun: bool, group: seq<Candidate>): set<string>
    requires group != []
  {
    if dryRun || Conflicting(group) then {} else IdSet(Losers(ChoosePrimary(rules, group), group))
  }

  function IdSet(cs: seq<Candidate>): set<string> {
    set c | c in cs :: c.id
  }

  ghost function GroupTally(rules: TextRules, dryRun: bool, records: Records, group: seq<Candidate>,
                            s: Summary): Summary
    requires group != []
  {
    if Skipped(rules, group) then s
    else s.(groupsChanged := s.groupsChanged + 1,
            conflictsFound := s.conflictsFound + (if Conflicting(group) then 1 else 0),
            relationshipsMoved := s.relationshipsMoved + |OwnedByAny(records, MovedIds(rules, dryRun, group))|,
            duplicatesArchived := s.duplicatesArchived + (if dryRun || Conflicting(group) then 0
                                                          else if |group| == 1 then 1
                                                          else |Losers(ChoosePrimary(rules, group), group)|),
            archivedFlagFixed := s.archivedFlagFixed + (if dryRun then 0 else |FlagTargets(rules, group)|))
  }

  // ----- The events left behind -----

  function EventFor(primary: Candidate, description: Description): Record {
    Record(TimelineEvent, Some(primary.id), primary.ownerSellerId, description)
  }

  function EventsFor(primary: Candidate, d: Candidate): seq<Record> {
    [EventFor(primary, MergedInto(d.name, TextOr(d.code, d.id)))] + [EventFor(primary, LoserArchived(d.name))]
  }

  lemma LoggedMerge(before: Log, repointed: Log, told: Log, after: Log, primary: Candidate, d: Candidate)
    requires Logged(before, repointed, [])
    requires Logged(repointed, told, [EventFor(primary, MergedInto(d.name, TextOr(d.code, d.id)))])
    requires Logged(told, after, [EventFor(primary, LoserArchived(d.name))])
    ensures Logged(before, after, EventsFor(primary, d))
  {
    var first, second := [EventFor(primary, MergedInto(d.name, TextOr(d.code, d.id)))],
      [EventFor(primary, LoserArchived(d.name))];
    hide Logged, EventFor;
    LoggedTwice(before, repointed, told, [], first);
    assert [] + first == first;
    LoggedTwice(before, told, after, first, second);
  }

  /** Two events on the primary for every loser. */
  function LoserEvents(primary: Candidate, losers: seq<Candidate>): seq<Record> {
    if losers == [] then []
    else LoserEvents(primary, losers[..|losers| - 1]) + EventsFor(primary, losers[|losers| - 1])
  }

  function GroupEvents(rules: TextRules, dryRun: bool, group: seq<Candidate>): seq<Record>
    requires group != []
  {
    var primary := ChoosePrimary(rules, group);
    if dryRun || Skipped(rules, group) || Conflicting(group) then []
    else if |group| == 1 then [EventFor(primary, SingleArchived)]
    else LoserEvents(primary, Losers(primary, group))
  }

  function AllEvents(rules: TextRules, dryRun: bool, groups: seq<seq<Candidate>>): seq<Record>
    requires NoneEmpty(groups)
  {
    if groups == [] then []
    else AllEvents(rules, dryRun, groups[..|groups| - 1]) + GroupEvents(rules, dryRun, groups[|groups| - 1])
  }

  /** The records, the number of the next one and the events created so far. */
  datatype Log = Log(records: Records, next: nat, trail: seq<Record>)

  /** Between two moments exactly `events` were created, each as one new row; no row was lost. */
  ghost predicate Logged(before: Log, after: Log, events: seq<Record>) {
    && after.trail == before.trail + events && after.next == before.next + |events|
    && forall id :: id in after.records <==> id in before.records || before.next <= id < after.next
  }

  lemma LoggedNothing(log: Log)
    ensures Logged(log, log, [])
  {
  }

  lemma LoggedTwice(before: Log, mid: Log, after: Log, first: seq<Record>, second: seq<Record>)
    requires Logged(before, mid, first) && Logged(mid, after, second)
    ensures Logged(before, after, first + second)
  {
  }

  lemma LoggedRepoint(log: Log, kinds: set<Kind>, from: string, to: string)
    ensures Logged(log, log.(records := Repointed(log.records, kinds, from, to)), [])
  {
  }

  lemma LoggedOne(log: Log, event: Record)
    requires log.next !in log.records
    ensures Logged(log, Log(log.records[log.next := event], log.next + 1, log.trail + [event]), [event])
  {
  }

  // ----- The script -----

  /** Client `c` of `group` as the store shows it at some point of the clean-up. */
  ghost predicate Shows(clients: Clients, c: Candidate, row: ClientRow) {
    c.id in clients && clients[c.id] == row
  }

  ghost predicate LoadedFrom(clients: Clients, group: seq<Candidate>) {
    forall c | c in group :: Shows(clients, c, RowOf(c))
  }

  ghost predicate Untouched(before: Clients, after: Clients, group: seq<Candidate>, id: string) {
    id !in IdSet(group) ==> (id in before <==> id in after) && (id in before ==> after[id] == before[id])
  }

  ghost predicate OthersUntouched(before: Clients, after: Clients, group: seq<Candidate>) {
    forall id :: Untouched(before, after, group, id)
  }

  class CrmStore {
    var clients: Clients
    var records: Records
    var nextRecord: nat
    var summary: Summary
    /** Every event created so far, as it was created. */
    ghost var trail: seq<Record>

    ghost predicate Valid()
      reads this
    {
      forall id | id in records :: id < nextRecord
    }

    ghost function Now(): Log
      reads this
    {
      Log(records, nextRecord, trail)
    }

    method UpdateMany(kind: Kind, from: string, to: string) returns (count: nat)
      requires Valid()
      modifies this`records
      ensures Valid() && records == Repointed(old(records), {kind}, from, to)
      ensures count == |Owned(old(records), {kind}, from)|
    {
      count := |Owned(records, {kind}, from)|;
      records := Repointed(records, {kind}, from, to);
    }

    /** Six bulk updates, one per kind of child record; the counts are summed. */
    method MoveRelationships(duplicateId: string, primaryId: string) returns (total: nat)
      requires Valid() && duplicateId != primaryId
      modifies this`records
      ensures Valid() && records == Repointed(old(records), KindSet(6), duplicateId, primaryId)
      ensures total == |Owned(old(records), KindSet(6), duplicateId)|
    {
      total := 0;
      assert Repointed(records, {}, duplicateId, primaryId) == records;
      assert Owned(records, {}, duplicateId) == {};
      for i := 0 to 6
        invariant Valid() && records == Repointed(old(records), KindSet(i), duplicateId, primaryId)
        invariant total == |Owned(old(records), KindSet(i), duplicateId)|
      {
        KindNext(i);
        RepointMore(old(records), KindSet(i), KINDS[i], duplicateId, primaryId);
        var count := UpdateMany(KINDS[i], duplicateId, primaryId);
        total := total + count;
      }
    }

    method CreateCleanupAuditEvent(clientId: string, ownerSellerId: string, description: Description,
                                   ghost before: Records, ghost ids: set<string>)
      requires Valid() && RecordsMoved(before, records, ids, clientId)
      modifies this`records, this`nextRecord, this`trail
      ensures Valid() && nextRecord == old(nextRecord) + 1
      ensures Logged(old(Now()), Now(), [Record(TimelineEvent, Some(clientId), ownerSellerId, description)])
      ensures records
              == old(records)[old(nextRecord) := Record(TimelineEvent, Some(clientId), ownerSellerId, description)]
      ensures RecordsMoved(before, records, ids, clientId)
    {
      ghost var event := Record(TimelineEvent, Some(clientId), ownerSellerId, description);
      CreateKeepsMoved(before, records, ids, clientId, nextRecord, event);
      LoggedOne(Now(), event);
      records := records[nextRecord := Record(TimelineEvent, Some(clientId), ownerSellerId, description)];
      nextRecord := nextRecord + 1;
      trail := trail + [event];
    }

    /** Merging one duplicate: move its records, leave two audit events, archive it. */
    method MergeDuplicate(rules: TextRules, stamp: string, primary: Candidate, duplicate: Candidate,
                          ghost before: Records, ghost ids: set<string>)
      requires Valid() && duplicate.id in clients && duplicate.id != primary.id
      requires RecordsMoved(before, records, ids, primary.id) && duplicate.id !in ids
      modifies this
      ensures Valid()
      ensures clients
              == old(clients)[duplicate.id :=
                              ArchivedLoser(rules, stamp, primary, duplicate, old(clients)[duplicate.id])]
      ensures RecordsMoved(before, records, ids + {duplicate.id}, primary.id)
      ensures |OwnedByAny(before, ids)| <= |OwnedByAny(before, ids + {duplicate.id})|
      ensures Logged(old(Now()), Now(), EventsFor(primary, duplicate))
      ensures summary == old(summary).(
                relationshipsMoved := old(summary).relationshipsMoved
                                      + |OwnedByAny(before, ids + {duplicate.id})| - |OwnedByAny(before, ids)|,
                duplicatesArchived := old(summary).duplicatesArchived + 1)
    {
      MoveOneMore(before, records, ids, primary.id, duplicate.id);
      LoggedRepoint(Now(), KindSet(6), duplicate.id, primary.id);
      hide RecordsMoved, OwnedByAny, Owned, Logged, ArchivedLoser, Repointed, KindSet, EventsFor, TextOr;
      var moved := MoveRelationships(duplicate.id, primary.id);
      ghost var repointed := Now();
      summary := summary.(relationshipsMoved := summary.relationshipsMoved + moved);
      CreateCleanupAuditEvent(primary.id, primary.ownerSellerId, 
                              MergedInto(duplicate.name, TextOr(duplicate.code, duplicate.id)), before,
                                ids + {duplicate.id});
      ghost var told := Now();
      clients := clients[duplicate.id := ArchivedLoser(rules, stamp, primary, duplicate, clients[duplicate.id])];
      CreateCleanupAuditEvent(primary.id, primary.ownerSellerId, LoserArchived(duplicate.name), before,
                              ids + {duplicate.id});
      LoggedMerge(old(Now()), repointed, told, Now(), primary, duplicate);
      summary := summary.(duplicatesArchived := summary.duplicatesArchived + 1);
    }

    /** `updateMany` of the flag targets. */
    method FixFlags(rules: TextRules, group: seq<Candidate>)
      requires LoadedFrom(clients, group) && DistinctIds(group)
      modifies this`clients, this`summary
      ensures FlagsFixed(rules, old(clients), clients, group)
      ensures summary
              == old(summary).(archivedFlagFixed := old(summary).archivedFlagFixed + |FlagTargets(rules, group)|)
    {
      var ids := IdSet(FlagTargets(rules, group));
      TargetsHit(rules, clients, group);
      summary := summary.(archivedFlagFixed := summary.archivedFlagFixed + |clients.Keys * ids|);
      FlagsHit(rules, clients, FlaggedAll(clients, ids), group);
      clients := FlaggedAll(clients, ids);
    }

    /** The transaction of a non-conflicting group. */
    method MergeGroup(rules: TextRules, stamp: string, group: seq<Candidate>, ghost loaded: Clients)
      requires Valid() && group != [] && DistinctIds(group) && !Conflicting(group) && !Skipped(rules, group)
      requires FlagsFixed(rules, loaded, clients, group)
      modifies this
      ensures Valid()
      ensures GroupCleaned(rules, stamp, loaded, clients, group)
      ensures RecordsMoved(old(records), records, MovedIds(rules, false, group), ChoosePrimary(rules, group).id)
      ensures Logged(old(Now()), Now(), GroupEvents(rules, false, group))
      ensures summary == old(summary).(
                relationshipsMoved :=
                  old(summary).relationshipsMoved + |OwnedByAny(old(records), MovedIds(rules, false, group))|,
                duplicatesArchived := old(summary).duplicatesArchived
                                      + if |group| == 1 then 1 else |Losers(ChoosePrimary(rules, group), group)|)
    {
      hide ChoosePrimary, Conflicting, FlagTargets, Losers, CleanedRow, GroupCleaned, Logged, LoserEvents;
      var primary := ChoosePrimary(rules, group);
      PrimaryInGroup(rules, group);
      SingleIsLegacy(rules, group);
      assert FlagFixed(rules, clients, primary);
      ghost var flagged := clients;
      if !IsLegacy(rules, primary) {
        clients := clients[primary.id := Restored(clients[primary.id])];
      }
      if |group| == 1 {
        ArchiveSingle(rules, stamp, group, loaded, flagged);
        return;
      }
      LosersLoaded(rules, flagged, group);
      MergedCleaned(rules, stamp, loaded, flagged, clients, group);
      MergeDuplicates(rules, stamp, primary, Losers(primary, group));
    }

    /** `singleLegacyArchived`. */
    method ArchiveSingle(rules: TextRules, stamp: string, group: seq<Candidate>, ghost loaded: Clients,
                         ghost flagged: Clients)
      requires Valid() && |group| == 1 && !Conflicting(group) && !Skipped(rules, group)
      requires FlagsFixed(rules, loaded, flagged, group) && group[0].id in flagged
      requires clients == RestoredPrimary(rules, flagged, group[0])
      modifies this
      ensures Valid() && GroupCleaned(rules, stamp, loaded, clients, group)
      ensures RecordsMoved(old(records), records, {}, group[0].id)
      ensures Logged(old(Now()), Now(), [EventFor(group[0], SingleArchived)])
      ensures summary == old(summary).(duplicatesArchived := old(summary).duplicatesArchived + 1)
    {
      var primary := group[0];
      SingleIsLegacy(rules, group);
      assert FlagFixed(rules, flagged, primary);
      clients := clients[primary.id := Flagged(clients[primary.id])];
      SingleCleaned(rules, stamp, loaded, flagged, clients, group);
      NothingMovedYet(records, primary.id);
      hide RecordsMoved, GroupCleaned, FlagsFixed, Logged;
      CreateCleanupAuditEvent(primary.id, primary.ownerSellerId, SingleArchived, records, {});
      summary := summary.(duplicatesArchived := summary.duplicatesArchived + 1);
    }

    method MergeDuplicates(rules: TextRules, stamp: string, primary: Candidate, duplicates: seq<Candidate>)
      requires Valid() && DistinctIds(duplicates)
      requires forall d | d in duplicates :: d.id in clients && d.id != primary.id
      modifies this
      ensures Valid()
      ensures clients == ArchivedAll(rules, stamp, primary, old(clients), duplicates)
      ensures RecordsMoved(old(records), records, IdSet(duplicates), primary.id)
      ensures Logged(old(Now()), Now(), LoserEvents(primary, duplicates))
      ensures summary == old(summary).(
                relationshipsMoved := old(summary).relationshipsMoved + |OwnedByAny(old(records), IdSet(duplicates))|,
                duplicatesArchived := old(summary).duplicatesArchived + |duplicates|)
    {
      NothingMovedYet(records, primary.id);
      LoggedNothing(Now());
      assert IdSet(duplicates[..0]) == {} && LoserEvents(primary, duplicates[..0]) == [];
      hide RecordsMoved, OwnedByAny, ArchivedLoser, Logged, EventsFor, LoserEvents;
      for m := 0 to |duplicates|
        invariant Valid()
        invariant clients == ArchivedAll(rules, stamp, primary, old(clients), duplicates[..m])
        invariant RecordsMoved(old(records), records, IdSet(duplicates[..m]), primary.id)
        invariant Logged(old(Now()), Now(), LoserEvents(primary, duplicates[..m]))
        invariant summary == old(summary).(
                    relationshipsMoved :=
                      old(summary).relationshipsMoved + |OwnedByAny(old(records), IdSet(duplicates[..m]))|,
                    duplicatesArchived := old(summary).duplicatesArchived + m)
      {
        NextLoser(rules, stamp, primary, old(clients), duplicates, m);
        NextLoserEvents(primary, duplicates, m);
        ghost var mid := Now();
        MergeDuplicate(rules, stamp, primary, duplicates[m], old(records), IdSet(duplicates[..m]));
        LoggedTwice(old(Now()), mid, Now(), LoserEvents(primary, duplicates[..m]), EventsFor(primary, duplicates[m]));
      }
      assert duplicates[..|duplicates|] == duplicates;
    }

    /** One iteration of the clean-up loop. */
    method CleanGroup(rules: TextRules, stamp: string, dryRun: bool, group: seq<Candidate>)
      requires Valid() && group != [] && DistinctIds(group) && LoadedFrom(clients, group)
      modifies this
      ensures Valid()
      ensures if dryRun then clients == old(clients) && records == old(records)
              else GroupCleaned(rules, stamp, old(clients), clients, group)
      ensures RecordsMoved(old(records), records, MovedIds(rules, dryRun, group), ChoosePrimary(rules, group).id)
      ensures Logged(old(Now()), Now(), GroupEvents(rules, dryRun, group))
      ensures summary == GroupTally(rules, dryRun, old(records), group, old(summary))
    {
      hide ChoosePrimary, Conflicting, FlagTargets, Losers, Logged;
      var primary := ChoosePrimary(rules, group);
      NothingMovedYet(records, primary.id);
      LoggedNothing(Now());
      if Losers(primary, group) == [] && FlagTargets(rules, group) == [] {
        SkippedCleaned(rules, stamp, clients, group);
        SkippedTally(rules, dryRun, group);
        return;
      }
      summary := summary.(groupsChanged := summary.groupsChanged + 1);
      if !dryRun {
        FixFlags(rules, group);
      }
      if Conflicting(group) {
        summary := summary.(conflictsFound := summary.conflictsFound + 1);
        ConflictCleaned(rules, stamp, old(clients), clients, group, dryRun);
        return;
      }
      if !dryRun {
        MergeGroup(rules, stamp, group, old(clients));
      }
    }

    /** The whole script, on the clients it loaded. */
    method CleanupLegacyDuplicates(rules: TextRules, stamp: string, dryRun: bool, candidates: seq<Candidate>)
      returns (ghost groups: seq<seq<Candidate>>)
      requires Valid() && DistinctIds(candidates) && LoadedFrom(clients, candidates)
      modifies this
      ensures Valid() && AreDuplicateGroups(rules, candidates, groups)
      ensures dryRun ==> clients == old(clients) && records == old(records)
      ensures !dryRun ==> StoreCleaned(rules, stamp, old(clients), clients, candidates)
      ensures RecordsHomed(rules, dryRun, groups, old(records), records)
      ensures NoneEmpty(groups) && Logged(old(Now()), Now(), AllEvents(rules, dryRun, groups))
      ensures summary == TotalTally(rules, dryRun, old(records), groups, Summary(|groups|, 0, 0, 0, 0, 0))
    {
      hide Progress, StoreCleaned, RecordsHomed, TotalTally, GroupTally, GroupCleaned, AreDuplicateGroups, RecordsMoved,
           Logged, AllEvents, GroupEvents;
      var found := BuildDuplicateGroups(rules, candidates);
      groups := found;
      summary := Summary(|found|, 0, 0, 0, 0, 0);
      GroupsAreApart(rules, candidates, found);
      StartHomed(rules, stamp, dryRun, candidates, found, clients, records, summary);
      ghost var start := summary;
      NoEvents(rules, dryRun, found);
      LoggedNothing(Now());
      for i := 0 to |found|
        invariant Valid()
        invariant dryRun ==> clients == old(clients) && records == old(records)
        invariant NoneEmpty(found[..i]) && Logged(old(Now()), Now(), AllEvents(rules, dryRun, found[..i]))
        invariant Progress(rules, stamp, dryRun, found, i, old(clients), clients, old(records), records)
        invariant summary == TotalTally(rules, dryRun, old(records), found[..i], start)
      {
        GroupReady(rules, stamp, dryRun, found, i, old(clients), clients, old(records), records);
        ghost var midClients, midRecords, midSummary, mid := clients, records, summary, Now();
        NextEvents(rules, dryRun, found, i);
        CleanGroup(rules, stamp, dryRun, found[i]);
        LoggedTwice(old(Now()), mid, Now(), AllEvents(rules, dryRun, found[..i]), GroupEvents(rules, dryRun, found[i]));
        GroupDone(rules, stamp, dryRun, found, i, old(clients), midClients, clients, old(records), midRecords, records,
                  midSummary, start);
      }
      AllDone(rules, stamp, dryRun, candidates, found, old(clients), clients, old(records), records);
    }
  }

  lemma NextLoserEvents(primary: Candidate, losers: seq<Candidate>, m: nat)
    requires m < |losers|
    ensures LoserEvents(primary, losers[..m + 1]) == LoserEvents(primary, losers[..m]) + EventsFor(primary, losers[m])
  {
    assert losers[..m + 1][..m] == losers[..m];
  }

  lemma NoEvents(rules: TextRules, dryRun: bool, groups: seq<seq<Candidate>>)
    ensures NoneEmpty(groups[..0]) && AllEvents(rules, dryRun, groups[..0]) == []
  {
  }

  lemma NextEvents(rules: TextRules, dryRun: bool, groups: seq<seq<Candidate>>, i: nat)
    requires i < |groups| && NoneEmpty(groups[..i]) && groups[i] != []
    ensures NoneEmpty(groups[..i + 1])
    ensures AllEvents(rules, dryRun, groups[..i + 1])
            == AllEvents(rules, dryRun, groups[..i]) + GroupEvents(rules, dryRun, groups[i])
  {
    hide GroupEvents;
    assert groups[..i + 1][..i] == groups[..i];
  }

  lemma KindNext(i: nat)
    requires i < 6
    ensures KINDS[i] !in KindSet(i) && KindSet(i + 1) == KindSet(i) + {KINDS[i]}
  {
    assert KINDS == [Activity, Opportunity, TimelineEvent, Contact, AgendaEvent, AgendaStop];
  }

  // ----- Facts about one group -----

  ghost predicate FlagFixed(rules: TextRules, after: Clients, c: Candidate) {
    Shows(after, c, if NeedsFlag(rules, c) then Flagged(RowOf(c)) else RowOf(c))
  }

  ghost predicate FlagsFixed(rules: TextRules, before: Clients, after: Clients, group: seq<Candidate>) {
    && (forall c | c in group :: FlagFixed(rules, after, c))
    && OthersUntouched(before, after, group)
  }

  ghost predicate ClientCleaned(rules: TextRules, stamp: string, after: Clients, group: seq<Candidate>, c: Candidate)
    requires group != []
  {
    Shows(after, c, CleanedRow(rules, stamp, group, c))
  }

  ghost predicate GroupCleaned(rules: TextRules, stamp: string, before: Clients, after: Clients, group: seq<Candidate>)
    requires group != []
  {
    && (forall c | c in group :: ClientCleaned(rules, stamp, after, group, c))
    && OthersUntouched(before, after, group)
  }

  function FlaggedAll(clients: Clients, ids: set<string>): Clients {
    map id | id in clients :: if id in ids then Flagged(clients[id]) else clients[id]
  }

  function ArchivedAll(rules: TextRules, stamp: string, primary: Candidate, clients: Clients,
                       losers: seq<Candidate>): Clients
    requires forall d | d in losers :: d.id in clients
  {
    if losers == [] then clients
    else
      var d := losers[|losers| - 1];
      var before := ArchivedAll(rules, stamp, primary, clients, losers[..|losers| - 1]);
      before[d.id := ArchivedLoser(rules, stamp, primary, d, clients[d.id])]
  }

  lemma NothingMovedYet(records: Records, to: string)
    ensures RecordsMoved(records, records, {}, to)
    ensures OwnedByAny(records, {}) == {}
  {
  }

  lemma {:induction false} DistinctPrefix(cs: seq<Candidate>, n: nat)
    requires DistinctIds(cs) && n <= |cs|
    ensures DistinctIds(cs[..n])
    ensures n < |cs| ==> cs[n].id !in IdSet(cs[..n])
  {
    if n < |cs| {
      forall c | c in cs[..n] ensures c.id != cs[n].id {
      }
    }
  }

  lemma {:induction false} DistinctFilter(cs: seq<Candidate>, p: Candidate -> bool)
    requires DistinctIds(cs)
    ensures DistinctIds(Filter(cs, p))
  {
    if cs != [] {
      var init := cs[..|cs| - 1];
      DistinctFilter(init, p);
      DistinctPrefix(cs, |cs| - 1);
      forall i | 0 <= i < |Filter(init, p)| ensures Filter(init, p)[i].id != cs[|cs| - 1].id {
        assert Filter(init, p)[i] in init;
      }
    }
  }

  lemma {:induction false} IdSetSize(cs: seq<Candidate>)
    requires DistinctIds(cs)
    ensures |IdSet(cs)| == |cs|
  {
    if cs != [] {
      var init, last := cs[..|cs| - 1], cs[|cs| - 1];
      DistinctPrefix(cs, |cs| - 1);
      IdSetSize(init);
      assert cs == init + [last];
      assert IdSet(cs) == IdSet(init) + {last.id};
    }
  }

  lemma TargetsHit(rules: TextRules, clients: Clients, group: seq<Candidate>)
    requires LoadedFrom(clients, group) && DistinctIds(group)
    ensures |clients.Keys * IdSet(FlagTargets(rules, group))| == |FlagTargets(rules, group)|
  {
    var targets := FlagTargets(rules, group);
    DistinctFilter(group, Flaggable(rules));
    IdSetSize(targets);
    forall c | c in targets ensures c.id in clients {
      assert Shows(clients, c, RowOf(c));
    }
    assert clients.Keys * IdSet(targets) == IdSet(targets);
  }

  lemma SameId(group: seq<Candidate>, c: Candidate, d: Candidate)
    requires DistinctIds(group) && c in group && d in group && c.id == d.id
    ensures c == d
  {
  }

  lemma FlagsHit(rules: TextRules, before: Clients, after: Clients, group: seq<Candidate>)
    requires LoadedFrom(before, group) && DistinctIds(group)
    requires after == FlaggedAll(before, IdSet(FlagTargets(rules, group)))
    ensures FlagsFixed(rules, before, after, group)
  {
    var targets := FlagTargets(rules, group);
    forall c | c in group ensures FlagFixed(rules, after, c) {
      assert Shows(before, c, RowOf(c));
      if c.id in IdSet(targets) {
        var d :| d in targets && d.id == c.id;
        SameId(group, c, d);
      }
    }
    forall id ensures Untouched(before, after, group, id) {
      if id in IdSet(targets) {
        var d :| d in targets && d.id == id;
        assert d in group;
      }
    }
  }

  lemma NextLoser(rules: TextRules, stamp: string, primary: Candidate, clients: Clients, losers: seq<Candidate>, m: nat)
    requires m < |losers| && DistinctIds(losers)
    requires forall d | d in losers :: d.id in clients
    ensures losers[m].id !in IdSet(losers[..m])
    ensures IdSet(losers[..m + 1]) == IdSet(losers[..m]) + {losers[m].id}
    ensures var now := ArchivedAll(rules, stamp, primary, clients, losers[..m]);
            && losers[m].id in now && now[losers[m].id] == clients[losers[m].id]
            && ArchivedAll(rules, stamp, primary, clients, losers[..m + 1])
               == now[losers[m].id := ArchivedLoser(rules, stamp, primary, losers[m], clients[losers[m].id])]
  {
    DistinctPrefix(losers, m);
    assert losers[..m + 1] == losers[..m] + [losers[m]];
    assert losers[..m + 1][..m] == losers[..m];
    ArchivedOthers(rules, stamp, primary, clients, losers[..m], losers[m].id);
  }

  lemma {:induction false} ArchivedOthers(rules: TextRules, stamp: string, primary: Candidate, clients: Clients,
                                          losers: seq<Candidate>, id: string)
    requires forall d | d in losers :: d.id in clients
    requires id !in IdSet(losers)
    ensures var now := ArchivedAll(rules, stamp, primary, clients, losers);
            (id in clients <==> id in now) && (id in clients ==> now[id] == clients[id])
  {
    if losers != [] {
      assert losers[|losers| - 1] in losers;
      ArchivedOthers(rules, stamp, primary, clients, losers[..|losers| - 1], id);
    }
  }

  lemma {:induction false} ArchivedOne(rules: TextRules, stamp: string, primary: Candidate, clients: Clients,
                                       losers: seq<Candidate>, c: Candidate)
    requires forall d | d in losers :: d.id in clients
    requires DistinctIds(losers) && c in losers
    ensures Shows(ArchivedAll(rules, stamp, primary, clients, losers), c,
                  ArchivedLoser(rules, stamp, primary, c, clients[c.id]))
  {
    var n := |losers| - 1;
    DistinctPrefix(losers, n);
    assert losers == losers[..n] + [losers[n]];
    if c != losers[n] {
      ArchivedOne(rules, stamp, primary, clients, losers[..n], c);
      assert c in losers[..n];
      assert c.id in IdSet(losers[..n]);
    }
  }

  lemma SkippedTally(rules: TextRules, dryRun: bool, group: seq<Candidate>)
    requires group != [] && Skipped(rules, group)
    ensures MovedIds(rules, dryRun, group) == {}
  {
  }

  lemma SkippedCleaned(rules: TextRules, stamp: string, clients: Clients, group: seq<Candidate>)
    requires group != [] && Skipped(rules, group) && LoadedFrom(clients, group)
    ensures GroupCleaned(rules, stamp, clients, clients, group)
    ensures Losers(ChoosePrimary(rules, group), group) == []
  {
    forall c | c in group ensures ClientCleaned(rules, stamp, clients, group, c) {
      assert Shows(clients, c, RowOf(c));
    }
  }

  lemma ConflictCleaned(rules: TextRules, stamp: string, before: Clients, after: Clients, group: seq<Candidate>,
                        dryRun: bool)
    requires group != [] && !Skipped(rules, group) && Conflicting(group)
    requires !dryRun ==> FlagsFixed(rules, before, after, group)
    ensures !dryRun ==> GroupCleaned(rules, stamp, before, after, group)
  {
    if !dryRun {
      forall c | c in group ensures ClientCleaned(rules, stamp, after, group, c) {
        assert FlagFixed(rules, after, c);
      }
    }
  }

  /** A one-client group that is not skipped holds a legacy-named client. */
  lemma SingleIsLegacy(rules: TextRules, group: seq<Candidate>)
    requires group != [] && !Skipped(rules, group)
    ensures |group| == 1 ==> ChoosePrimary(rules, group) == group[0] && NeedsFlag(rules, group[0])
    ensures |group| == 1 ==> IdSet(Losers(group[0], group)) == {}
  {
    if |group| == 1 {
      PrimaryInGroup(rules, group);
      assert forall c | c in group :: c == group[0];
      assert Losers(group[0], group) == [] by {
        FilterNone(group, IsNot(group[0]));
      }
      assert FlagTargets(rules, group) != [];
      assert FlagTargets(rules, group)[0] in FlagTargets(rules, group);
    }
  }

  function RestoredPrimary(rules: TextRules, clients: Clients, p: Candidate): Clients
    requires p.id in clients
  {
    if IsLegacy(rules, p) then clients else clients[p.id := Restored(clients[p.id])]
  }

  lemma SingleCleaned(rules: TextRules, stamp: string, loaded: Clients, flagged: Clients, after: Clients,
                      group: seq<Candidate>)
    requires |group| == 1 && !Skipped(rules, group) && !Conflicting(group)
    requires FlagsFixed(rules, loaded, flagged, group)
    requires after == flagged[group[0].id := Flagged(RowOf(group[0]))]
    ensures GroupCleaned(rules, stamp, loaded, after, group)
  {
    SingleIsLegacy(rules, group);
    forall c | c in group ensures ClientCleaned(rules, stamp, after, group, c) {
      assert c == group[0];
    }
    forall id ensures Untouched(loaded, after, group, id) {
      assert Untouched(loaded, flagged, group, id);
      assert group[0] in group;
    }
  }

  function Restored(row: ClientRow): ClientRow {
    row.(isArchived := false, archiveReason := None)
  }

  function IsNot(primary: Candidate): Candidate -> bool {
    (c: Candidate) => c.id != primary.id
  }

  lemma LosersLoaded(rules: TextRules, flagged: Clients, group: seq<Candidate>)
    requires group != [] && DistinctIds(group)
    requires forall c | c in group :: FlagFixed(rules, flagged, c)
    ensures var losers := Losers(ChoosePrimary(rules, group), group);
            && DistinctIds(losers)
            && forall d | d in losers :: d.id in flagged && d.id != ChoosePrimary(rules, group).id
  {
    var losers := Losers(ChoosePrimary(rules, group), group);
    DistinctFilter(group, IsNot(ChoosePrimary(rules, group)));
    forall d | d in losers ensures d.id in flagged && d.id != ChoosePrimary(rules, group).id {
      assert IsNot(ChoosePrimary(rules, group))(d);
      assert FlagFixed(rules, flagged, d);
    }
  }

  /** Flags fixed, primary restored if it deserves it, losers archived: every client of the group is cleaned. */
  lemma MergedCleaned(rules: TextRules, stamp: string, loaded: Clients, flagged: Clients, restored: Clients,
                      group: seq<Candidate>)
    requires group != [] && DistinctIds(group) && !Skipped(rules, group) && !Conflicting(group)
    requires FlagsFixed(rules, loaded, flagged, group)
    requires var p := ChoosePrimary(rules, group);
             && p.id in flagged
             && restored == RestoredPrimary(rules, flagged, p)
    requires forall d | d in Losers(ChoosePrimary(rules, group), group) :: d.id in restored
    ensures GroupCleaned(rules, stamp, loaded,
                         ArchivedAll(rules, stamp, ChoosePrimary(rules, group), restored,
                                     Losers(ChoosePrimary(rules, group), group)), group)
  {
    var p := ChoosePrimary(rules, group);
    var losers := Losers(p, group);
    var after := ArchivedAll(rules, stamp, p, restored, losers);
    PrimaryInGroup(rules, group);
    LosersLoaded(rules, flagged, group);
    forall c | c in group ensures ClientCleaned(rules, stamp, after, group, c) {
      assert FlagFixed(rules, flagged, c);
      if c.id != p.id {
        assert IsNot(p)(c);
        ArchivedOne(rules, stamp, p, restored, losers, c);
      } else {
        SameId(group, c, p);
        ArchivedOthers(rules, stamp, p, restored, losers, p.id);
      }
    }
    forall id ensures Untouched(loaded, after, group, id) {
      assert Untouched(loaded, flagged, group, id);
      if id !in IdSet(group) {
        assert p.id in IdSet(group);
        ArchivedOthers(rules, stamp, p, restored, losers, id);
      }
    }
  }

  // ----- The whole run -----

  /** Every client of the group is listed once, and it shares no id with another group. */
  ghost predicate SharesNoId(groups: seq<seq<Candidate>>, i: int, j: int) {
    0 <= i < j < |groups| ==> IdSet(groups[i]) !! IdSet(groups[j])
  }

  ghost predicate NoneEmpty(groups: seq<seq<Candidate>>) {
    forall k | 0 <= k < |groups| :: groups[k] != []
  }

  ghost predicate Apart(groups: seq<seq<Candidate>>) {
    && NoneEmpty(groups)
    && (forall k | 0 <= k < |groups| :: DistinctIds(groups[k]))
    && (forall i, j :: SharesNoId(groups, i, j))
  }

  lemma GroupsAreApart(rules: TextRules, candidates: seq<Candidate>, groups: seq<seq<Candidate>>)
    requires DistinctIds(candidates) && AreDuplicateGroups(rules, candidates, groups)
    ensures Apart(groups)
    ensures forall k, c | 0 <= k < |groups| && c in groups[k] :: c in candidates
  {
    forall k | 0 <= k < |groups|
      ensures groups[k] != [] && DistinctIds(groups[k]) && forall c | c in groups[k] :: c in candidates {
      var g := groups[k];
      assert g in groups && IsClass(rules, candidates, g);
      DistinctFilter(candidates, DuplicateOf(rules, candidates, g[0]));
    }
    forall i, j ensures SharesNoId(groups, i, j) {
      if 0 <= i < j < |groups| {
        forall id | id in IdSet(groups[i]) ensures id !in IdSet(groups[j]) {
          var c :| c in groups[i] && c.id == id;
          assert NotInBoth(groups, i, j, c);
          forall d | d in groups[j] ensures d.id != id {
            assert d in candidates && c in candidates;
          }
        }
      }
    }
  }

  /** The owner id a record ends with, going through the cleaned groups. */
  ghost function HomeId(rules: TextRules, dryRun: bool, groups: seq<seq<Candidate>>, id: string): string
    requires NoneEmpty(groups)
  {
    if groups == [] then id
    else
      var g := groups[|groups| - 1];
      if id in MovedIds(rules, dryRun, g) then ChoosePrimary(rules, g).id
      else HomeId(rules, dryRun, groups[..|groups| - 1], id)
  }

  ghost function HomedRecord(rules: TextRules, dryRun: bool, groups: seq<seq<Candidate>>, r: Record): Record
    requires NoneEmpty(groups)
  {
    if r.clientId.Some? then r.(clientId := Some(HomeId(rules, dryRun, groups, r.clientId.value))) else r
  }

  ghost predicate OfPrimary(rules: TextRules, groups: seq<seq<Candidate>>, r: Record)
    requires NoneEmpty(groups)
  {
    r.kind == TimelineEvent && exists k | 0 <= k < |groups| :: r.clientId == Some(ChoosePrimary(rules, groups[k]).id)
  }

  /** A pre-existing record survives, at its owner's home; a new one is an audit event of some primary. */
  ghost predicate RecordHomed(rules: TextRules, dryRun: bool, groups: seq<seq<Candidate>>, before: Records,
                              after: Records, id: nat)
    requires NoneEmpty(groups)
  {
    && (id in before ==> id in after && after[id] == HomedRecord(rules, dryRun, groups, before[id]))
    && (id in after && id !in before ==> OfPrimary(rules, groups, after[id]))
  }

  ghost predicate RecordsHomed(rules: TextRules, dryRun: bool, groups: seq<seq<Candidate>>, before: Records,
                               after: Records)
  {
    && NoneEmpty(groups)
    && forall id :: RecordHomed(rules, dryRun, groups, before, after, id)
  }

  lemma MovedInGroup(rules: TextRules, dryRun: bool, g: seq<Candidate>)
    requires g != []
    ensures MovedIds(rules, dryRun, g) <= IdSet(g)
    ensures ChoosePrimary(rules, g).id in IdSet(g)
    ensures ChoosePrimary(rules, g).id !in MovedIds(rules, dryRun, g)
  {
    PrimaryInGroup(rules, g);
    var p := ChoosePrimary(rules, g);
    forall c | c in Losers(p, g) ensures c in g && c.id != p.id {
      assert IsNot(p)(c);
    }
  }

  /** A home differs from the id only inside one group. */
  lemma {:induction false} HomeInSameGroup(rules: TextRules, dryRun: bool, groups: seq<seq<Candidate>>, id: string)
    requires NoneEmpty(groups)
    ensures HomeId(rules, dryRun, groups, id) != id ==>
              exists k | 0 <= k < |groups| :: id in IdSet(groups[k])
                && HomeId(rules, dryRun, groups, id) in IdSet(groups[k])
  {
    if groups != [] {
      var init, g := groups[..|groups| - 1], groups[|groups| - 1];
      MovedInGroup(rules, dryRun, g);
      HomeInSameGroup(rules, dryRun, init, id);
      if id in MovedIds(rules, dryRun, g) {
        assert id in IdSet(groups[|groups| - 1]);
      } else if HomeId(rules, dryRun, init, id) != id {
        var k :| 0 <= k < |init| && id in IdSet(init[k]) && HomeId(rules, dryRun, init, id) in IdSet(init[k]);
        assert groups[k] == init[k];
      }
    }
  }

  /** Cleaning the next group moves a record exactly when its ORIGINAL owner loses there. */
  lemma HomeBeforeGroup(rules: TextRules, dryRun: bool, groups: seq<seq<Candidate>>, i: nat, id: string)
    requires Apart(groups) && i < |groups|
    ensures var home := HomeId(rules, dryRun, groups[..i], id);
            home in MovedIds(rules, dryRun, groups[i]) <==> id in MovedIds(rules, dryRun, groups[i])
  {
    var home := HomeId(rules, dryRun, groups[..i], id);
    HomeInSameGroup(rules, dryRun, groups[..i], id);
    MovedInGroup(rules, dryRun, groups[i]);
    if home != id {
      var k :| 0 <= k < i && id in IdSet(groups[..i][k]) && home in IdSet(groups[..i][k]);
      assert SharesNoId(groups, k, i) && groups[..i][k] == groups[k];
    }
  }

  lemma HomeStep(rules: TextRules, dryRun: bool, groups: seq<seq<Candidate>>, i: nat, id: string)
    requires Apart(groups) && i < |groups|
    ensures HomeId(rules, dryRun, groups[..i + 1], id) ==
            if id in MovedIds(rules, dryRun, groups[i]) then ChoosePrimary(rules, groups[i]).id
            else HomeId(rules, dryRun, groups[..i], id)
  {
    assert groups[..i + 1][..i] == groups[..i];
  }

  lemma RecordsStep(rules: TextRules, dryRun: bool, groups: seq<seq<Candidate>>, i: nat,
                    before: Records, mid: Records, after: Records)
    requires Apart(groups) && i < |groups|
    requires RecordsHomed(rules, dryRun, groups[..i], before, mid)
    requires RecordsMoved(mid, after, MovedIds(rules, dryRun, groups[i]), ChoosePrimary(rules, groups[i]).id)
    ensures RecordsHomed(rules, dryRun, groups[..i + 1], before, after)
  {
    var done := groups[..i + 1];
    forall id ensures RecordHomed(rules, dryRun, done, before, after, id) {
      RecordStep(rules, dryRun, groups, i, before, mid, after, id);
    }
  }

  lemma RecordStep(rules: TextRules, dryRun: bool, groups: seq<seq<Candidate>>, i: nat,
                   before: Records, mid: Records, after: Records, id: nat)
    requires Apart(groups) && i < |groups|
    requires RecordHomed(rules, dryRun, groups[..i], before, mid, id)
    requires RecordMoved(mid, after, MovedIds(rules, dryRun, groups[i]), ChoosePrimary(rules, groups[i]).id, id)
    ensures RecordHomed(rules, dryRun, groups[..i + 1], before, after, id)
  {
    assert groups[..i + 1][i] == groups[i];
    if id in before {
      if before[id].clientId.Some? {
        HomeBeforeGroup(rules, dryRun, groups, i, before[id].clientId.value);
        HomeStep(rules, dryRun, groups, i, before[id].clientId.value);
      }
    } else if id in mid {
      EventStays(rules, dryRun, groups, i, mid[id]);
    }
  }

  lemma EventStays(rules: TextRules, dryRun: bool, groups: seq<seq<Candidate>>, i: nat, r: Record)
    requires Apart(groups) && i < |groups| && OfPrimary(rules, groups[..i], r)
    ensures r.clientId.Some? && r.clientId.value !in MovedIds(rules, dryRun, groups[i])
    ensures OfPrimary(rules, groups[..i + 1], r)
  {
    var k :| 0 <= k < i && r.clientId == Some(ChoosePrimary(rules, groups[..i][k]).id);
    assert SharesNoId(groups, k, i) && groups[..i][k] == groups[k];
    MovedInGroup(rules, dryRun, groups[k]);
    MovedInGroup(rules, dryRun, groups[i]);
    assert groups[..i + 1][k] == groups[k];
  }

  /** The records moved out of group `i` are those its losers owned at the start. */
  lemma CountFromStart(rules: TextRules, dryRun: bool, groups: seq<seq<Candidate>>, i: nat, before: Records,
                       mid: Records)
    requires Apart(groups) && i < |groups|
    requires RecordsHomed(rules, dryRun, groups[..i], before, mid)
    ensures OwnedByAny(mid, MovedIds(rules, dryRun, groups[i]))
            == OwnedByAny(before, MovedIds(rules, dryRun, groups[i]))
  {
    var ids := MovedIds(rules, dryRun, groups[i]);
    forall id ensures id in OwnedByAny(mid, ids) <==> id in OwnedByAny(before, ids) {
      assert RecordHomed(rules, dryRun, groups[..i], before, mid, id);
      if id in before {
        if before[id].clientId.Some? {
          HomeBeforeGroup(rules, dryRun, groups, i, before[id].clientId.value);
        }
      } else if id in mid {
        EventStays(rules, dryRun, groups, i, mid[id]);
      }
    }
  }

  // ----- Counters over the whole run -----

  ghost function TotalTally(rules: TextRules, dryRun: bool, records: Records, groups: seq<seq<Candidate>>,
                            s: Summary): Summary
    requires NoneEmpty(groups)
  {
    if groups == [] then s
    else GroupTally(rules, dryRun, records, groups[|groups| - 1],
                    TotalTally(rules, dryRun, records, groups[..|groups| - 1], s))
  }

  /** The records whose owner changes. */
  ghost function Rehomed(rules: TextRules, dryRun: bool, records: Records, groups: seq<seq<Candidate>>): set<nat>
    requires NoneEmpty(groups)
  {
    set id | id in records && HomedRecord(rules, dryRun, groups, records[id]) != records[id]
  }

  /** `relationshipsMoved` is the number of pre-existing records that change owner. */
  lemma {:induction false} MovedCount(rules: TextRules, dryRun: bool, records: Records, groups: seq<seq<Candidate>>,
                                      s: Summary)
    requires Apart(groups)
    ensures TotalTally(rules, dryRun, records, groups, s).relationshipsMoved
            == s.relationshipsMoved + |Rehomed(rules, dryRun, records, groups)|
  {
    if groups == [] {
      assert Rehomed(rules, dryRun, records, groups) == {};
    } else {
      var n := |groups| - 1;
      var init, g := groups[..n], groups[n];
      forall i, j ensures SharesNoId(init, i, j) {
        assert SharesNoId(groups, i, j);
      }
      hide ChoosePrimary, Conflicting, Losers, FlagTargets, MovedIds, Rehomed, OwnedByAny;
      MovedCount(rules, dryRun, records, init, s);
      RehomedStep(rules, dryRun, records, groups);
      if Skipped(rules, g) {
        SkippedTally(rules, dryRun, g);
        NothingMovedYet(records, "");
      }
    }
  }

  lemma RehomedStep(rules: TextRules, dryRun: bool, records: Records, groups: seq<seq<Candidate>>)
    requires Apart(groups) && groups != []
    ensures var init, ids := groups[..|groups| - 1], MovedIds(rules, dryRun, groups[|groups| - 1]);
            && Rehomed(rules, dryRun, records, init) !! OwnedByAny(records, ids)
            && Rehomed(rules, dryRun, records, groups)
              == Rehomed(rules, dryRun, records, init) + OwnedByAny(records, ids)
  {
    var n := |groups| - 1;
    var init, ids := groups[..n], MovedIds(rules, dryRun, groups[n]);
    hide MovedIds, HomedRecord;
    forall id | id in records
      ensures id in Rehomed(rules, dryRun, records, groups) <==>
              id in Rehomed(rules, dryRun, records, init) || id in OwnedByAny(records, ids)
      ensures !(id in Rehomed(rules, dryRun, records, init) && id in OwnedByAny(records, ids))
    {
      RehomedOne(rules, dryRun, groups, records[id]);
    }
  }

  lemma RehomedOne(rules: TextRules, dryRun: bool, groups: seq<seq<Candidate>>, r: Record)
    requires Apart(groups) && groups != []
    ensures var init, ids := groups[..|groups| - 1], MovedIds(rules, dryRun, groups[|groups| - 1]);
            && (HomedRecord(rules, dryRun, groups, r) != r <==>
                  HomedRecord(rules, dryRun, init, r) != r || (r.clientId.Some? && r.clientId.value in ids))
            && !(HomedRecord(rules, dryRun, init, r) != r && r.clientId.Some? && r.clientId.value in ids)
  {
    var n := |groups| - 1;
    var init := groups[..n];
    hide MovedIds, HomeId, ChoosePrimary;
    if r.clientId.Some? {
      var owner := r.clientId.value;
      assert groups[..n + 1] == groups;
      HomeStep(rules, dryRun, groups, n, owner);
      MovedInGroup(rules, dryRun, groups[n]);
      HomeInSameGroup(rules, dryRun, init, owner);
      if HomeId(rules, dryRun, init, owner) != owner {
        var k :| 0 <= k < n && owner in IdSet(init[k]);
        assert SharesNoId(groups, k, n);
      }
    }
  }

  // ----- Progress of the loop -----

  ghost predicate GroupState(rules: TextRules, stamp: string, dryRun: bool, groups: seq<seq<Candidate>>, i: nat,
                             now: Clients, k: int) {
    0 <= k < |groups| && groups[k] != [] ==>
      if k < i && !dryRun then forall c | c in groups[k] :: ClientCleaned(rules, stamp, now, groups[k], c)
      else LoadedFrom(now, groups[k])
  }

  ghost predicate GroupStates(rules: TextRules, stamp: string, dryRun: bool, groups: seq<seq<Candidate>>, i: nat,
                              now: Clients) {
    forall k :: GroupState(rules, stamp, dryRun, groups, i, now, k)
  }

  ghost predicate InSomeGroup(groups: seq<seq<Candidate>>, id: string) {
    exists k | 0 <= k < |groups| :: id in IdSet(groups[k])
  }

  ghost predicate OutsideSame(groups: seq<seq<Candidate>>, before: Clients, now: Clients, id: string) {
    !InSomeGroup(groups, id) ==> (id in before <==> id in now) && (id in before ==> now[id] == before[id])
  }

  /** After `i` groups: those are cleaned, the rest is as loaded, and records are where `i` groups put them. */
  ghost predicate Progress(rules: TextRules, stamp: string, dryRun: bool, groups: seq<seq<Candidate>>, i: nat,
                           before: Clients, now: Clients, recordsBefore: Records, recordsNow: Records) {
    && i <= |groups| && Apart(groups) && NoneEmpty(groups[..i])
    && GroupStates(rules, stamp, dryRun, groups, i, now)
    && (forall id :: OutsideSame(groups, before, now, id))
    && RecordsHomed(rules, dryRun, groups[..i], recordsBefore, recordsNow)
  }

  lemma StartHomed(rules: TextRules, stamp: string, dryRun: bool, candidates: seq<Candidate>,
                   groups: seq<seq<Candidate>>,
                   clients: Clients, records: Records, s: Summary)
    requires Apart(groups) && LoadedFrom(clients, candidates)
    requires forall k, c | 0 <= k < |groups| && c in groups[k] :: c in candidates
    ensures Progress(rules, stamp, dryRun, groups, 0, clients, clients, records, records)
    ensures s == TotalTally(rules, dryRun, records, groups[..0], s)
  {
    forall k ensures GroupState(rules, stamp, dryRun, groups, 0, clients, k) {
    }
    var none: seq<seq<Candidate>> := groups[..0];
    forall id ensures RecordHomed(rules, dryRun, none, records, records, id) {
    }
  }

  lemma GroupReady(rules: TextRules, stamp: string, dryRun: bool, groups: seq<seq<Candidate>>, i: nat,
                   before: Clients, now: Clients, recordsBefore: Records, recordsNow: Records)
    requires Progress(rules, stamp, dryRun, groups, i, before, now, recordsBefore, recordsNow) && i < |groups|
    ensures groups[i] != [] && DistinctIds(groups[i]) && LoadedFrom(now, groups[i])
  {
    assert GroupState(rules, stamp, dryRun, groups, i, now, i);
  }

  lemma ClientsStep(rules: TextRules, stamp: string, groups: seq<seq<Candidate>>, i: nat,
                    before: Clients, mid: Clients, after: Clients)
    requires i < |groups| && Apart(groups)
    requires GroupStates(rules, stamp, false, groups, i, mid)
    requires forall id :: OutsideSame(groups, before, mid, id)
    requires GroupCleaned(rules, stamp, mid, after, groups[i])
    ensures GroupStates(rules, stamp, false, groups, i + 1, after)
    ensures forall id :: OutsideSame(groups, before, after, id)
  {
    var n := i + 1;
    forall k ensures GroupState(rules, stamp, false, groups, n, after, k) {
      assert GroupState(rules, stamp, false, groups, i, mid, k);
      if 0 <= k < |groups| && k != i {
        assert SharesNoId(groups, k, i) && SharesNoId(groups, i, k);
        OtherGroupKept(rules, stamp, mid, after, groups[i], groups[k]);
      }
    }
    forall id ensures OutsideSame(groups, before, after, id) {
      assert OutsideSame(groups, before, mid, id) && Untouched(mid, after, groups[i], id);
    }
  }

  lemma OtherGroupKept(rules: TextRules, stamp: string, mid: Clients, after: Clients, g: seq<Candidate>,
                       other: seq<Candidate>)
    requires OthersUntouched(mid, after, g) && IdSet(g) !! IdSet(other) && other != []
    ensures LoadedFrom(mid, other) ==> LoadedFrom(after, other)
    ensures (forall c | c in other :: ClientCleaned(rules, stamp, mid, other, c)) ==>
              forall c | c in other :: ClientCleaned(rules, stamp, after, other, c)
  {
    hide CleanedRow;
    forall c | c in other ensures Shows(mid, c, RowOf(c)) ==> Shows(after, c, RowOf(c))
      ensures ClientCleaned(rules, stamp, mid, other, c) ==> ClientCleaned(rules, stamp, after, other, c)
    {
      assert c.id in IdSet(other);
      assert Untouched(mid, after, g, c.id);
    }
  }

  lemma GroupDone(rules: TextRules, stamp: string, dryRun: bool, groups: seq<seq<Candidate>>, i: nat,
                  before: Clients, mid: Clients, after: Clients,
                  recordsBefore: Records, recordsMid: Records, recordsAfter: Records,
                  summaryMid: Summary, start: Summary)
    requires Progress(rules, stamp, dryRun, groups, i, before, mid, recordsBefore, recordsMid) && i < |groups|
    requires if dryRun then after == mid else GroupCleaned(rules, stamp, mid, after, groups[i])
    requires RecordsMoved(recordsMid, recordsAfter, MovedIds(rules, dryRun, groups[i]),
                          ChoosePrimary(rules, groups[i]).id)
    requires NoneEmpty(groups[..i]) && summaryMid == TotalTally(rules, dryRun, recordsBefore, groups[..i], start)
    ensures Progress(rules, stamp, dryRun, groups, i + 1, before, after, recordsBefore, recordsAfter)
    ensures NoneEmpty(groups[..i + 1])
    ensures GroupTally(rules, dryRun, recordsMid, groups[i], summaryMid)
            == TotalTally(rules, dryRun, recordsBefore, groups[..i + 1], start)
  {
    hide ChoosePrimary, MovedIds, GroupCleaned, CleanedRow, Conflicting, Losers, FlagTargets, OwnedByAny, RecordsHomed,
         RecordsMoved;
    RecordsStep(rules, dryRun, groups, i, recordsBefore, recordsMid, recordsAfter);
    CountFromStart(rules, dryRun, groups, i, recordsBefore, recordsMid);
    assert groups[..i + 1][..i] == groups[..i];
    if dryRun {
      var n := i + 1;
      forall k ensures GroupState(rules, stamp, dryRun, groups, n, after, k) {
        assert GroupState(rules, stamp, dryRun, groups, i, mid, k);
      }
    } else {
      ClientsStep(rules, stamp, groups, i, before, mid, after);
    }
  }

  // ----- The end of the run, client by client -----

  /** The row a loaded client ends with, told from its duplicate chains alone. */
  ghost function FinalRow(rules: TextRules, stamp: string, candidates: seq<Candidate>, c: Candidate): ClientRow {
    var g := ClassOf(rules, candidates, c);
    if g == [] then RowOf(c) else CleanedRow(rules, stamp, g, c)
  }

  /** Merged into the primary of its class. */
  ghost predicate Loses(rules: TextRules, candidates: seq<Candidate>, c: Candidate) {
    var g := ClassOf(rules, candidates, c);
    g != [] && !Conflicting(g) && c.id != ChoosePrimary(rules, g).id
  }

  ghost predicate ClientFinal(rules: TextRules, stamp: string, after: Clients, candidates: seq<Candidate>,
                              c: Candidate) {
    Shows(after, c, FinalRow(rules, stamp, candidates, c))
  }

  ghost predicate StoreCleaned(rules: TextRules, stamp: string, before: Clients, after: Clients,
                               candidates: seq<Candidate>) {
    && (forall c | c in candidates :: ClientFinal(rules, stamp, after, candidates, c))
    && OthersUntouched(before, after, candidates)
  }

  lemma InOwnClass(rules: TextRules, candidates: seq<Candidate>, c: Candidate)
    requires c in candidates
    ensures c in ClassOf(rules, candidates, c)
  {
    LinkedRefl(Bucketed(rules, candidates), c);
    assert DuplicateOf(rules, candidates, c)(c);
  }

  /** A loaded client listed in a group is listed in its own class. */
  lemma GroupIsClass(rules: TextRules, candidates: seq<Candidate>, groups: seq<seq<Candidate>>, k: nat, c: Candidate)
    requires AreDuplicateGroups(rules, candidates, groups) && k < |groups| && c in groups[k]
    ensures groups[k] == ClassOf(rules, candidates, c)
  {
    assert groups[k] in groups && IsClass(rules, candidates, groups[k]);
    SameClass(rules, candidates, groups[k][0], c);
  }

  /** A class that is not reported is one client without the legacy name: nothing to do. */
  lemma UnreportedIsAlone(rules: TextRules, candidates: seq<Candidate>, groups: seq<seq<Candidate>>, c: Candidate)
    requires AreDuplicateGroups(rules, candidates, groups) && c in candidates
    requires forall k | 0 <= k < |groups| :: c !in groups[k]
    ensures ClassOf(rules, candidates, c) == [c]
    ensures Skipped(rules, [c]) && !IsLegacy(rules, c)
  {
    assert CoveredIfWorth(rules, candidates, groups, c);
    InOwnClass(rules, candidates, c);
    var g := ClassOf(rules, candidates, c);
    assert !WorthCleaning(rules)(g);
    assert |g| <= 1;
    assert g == [c];
    assert !SomeLegacy(rules)(g);
    assert c in g;
    PrimaryInGroup(rules, [c]);
    FilterNone([c], IsNot(c));
    FilterNone([c], Flaggable(rules));
  }

  lemma FinalClient(rules: TextRules, stamp: string, candidates: seq<Candidate>, groups: seq<seq<Candidate>>,
                    before: Clients, after: Clients, c: Candidate)
    requires DistinctIds(candidates) && AreDuplicateGroups(rules, candidates, groups) && LoadedFrom(before, candidates)
    requires GroupStates(rules, stamp, false, groups, |groups|, after)
    requires forall id :: OutsideSame(groups, before, after, id)
    requires forall k, d | 0 <= k < |groups| && d in groups[k] :: d in candidates
    requires c in candidates
    ensures ClientFinal(rules, stamp, after, candidates, c)
  {
    hide CleanedRow;
    if k :| 0 <= k < |groups| && c in groups[k] {
      GroupIsClass(rules, candidates, groups, k, c);
      assert GroupState(rules, stamp, false, groups, |groups|, after, k);
      assert ClientCleaned(rules, stamp, after, groups[k], c);
    } else {
      UnreportedIsAlone(rules, candidates, groups, c);
      SkippedRow(rules, stamp, c);
      assert Shows(before, c, RowOf(c)) && OutsideSame(groups, before, after, c.id);
      forall k | 0 <= k < |groups| ensures c.id !in IdSet(groups[k]) {
        forall d | d in groups[k] ensures d.id != c.id {
          assert d in candidates;
        }
      }
    }
  }

  lemma SkippedRow(rules: TextRules, stamp: string, c: Candidate)
    requires Skipped(rules, [c])
    ensures CleanedRow(rules, stamp, [c], c) == RowOf(c)
  {
  }

  lemma AllDone(rules: TextRules, stamp: string, dryRun: bool, candidates: seq<Candidate>, groups: seq<seq<Candidate>>,
                before: Clients, after: Clients, recordsBefore: Records, recordsAfter: Records)
    requires DistinctIds(candidates) && AreDuplicateGroups(rules, candidates, groups) && LoadedFrom(before, candidates)
    requires forall k, d | 0 <= k < |groups| && d in groups[k] :: d in candidates
    requires Progress(rules, stamp, dryRun, groups, |groups|, before, after, recordsBefore, recordsAfter)
    ensures !dryRun ==> StoreCleaned(rules, stamp, before, after, candidates)
    ensures RecordsHomed(rules, dryRun, groups, recordsBefore, recordsAfter)
    ensures groups[..|groups|] == groups
  {
    assert groups[..|groups|] == groups;
    if !dryRun {
      forall c | c in candidates ensures ClientFinal(rules, stamp, after, candidates, c) {
        FinalClient(rules, stamp, candidates, groups, before, after, c);
      }
      forall id ensures Untouched(before, after, candidates, id) {
        assert OutsideSame(groups, before, after, id);
        if id !in IdSet(candidates) {
          forall k | 0 <= k < |groups| ensures id !in IdSet(groups[k]) {
            forall d | d in groups[k] ensures d.id != id {
              assert d in candidates;
            }
          }
        }
      }
    }
  }

  // ----- What the run guarantees -----

  /** Every loaded client whose name carries the legacy prefix ends archived with the clean-up reason,
      whatever its group, conflicting ones included. */
  lemma LegacyEndsArchived(rules: TextRules, stamp: string, candidates: seq<Candidate>, c: Candidate)
    requires DistinctIds(candidates) && c in candidates && IsLegacy(rules, c)
    ensures FinalRow(rules, stamp, candidates, c).isArchived
    ensures FinalRow(rules, stamp, candidates, c).archiveReason == Some(CLEANUP_REASON)
  {
    hide ClassOf, ChoosePrimary;
    var g := ClassOf(rules, candidates, c);
    ClassDistinct(rules, candidates, c);
    PrimaryInGroup(rules, g);
    if c.id == ChoosePrimary(rules, g).id {
      SameId(g, c, ChoosePrimary(rules, g));
    }
    SkippedHasNoTarget(rules, g, c);
    hide Skipped, Conflicting;
  }

  lemma SkippedHasNoTarget(rules: TextRules, g: seq<Candidate>, c: Candidate)
    requires g != []
    ensures c in g && Skipped(rules, g) ==> !NeedsFlag(rules, c)
  {
    hide ChoosePrimary, NeedsFlag;
    assert NeedsFlag(rules, c) ==> Flaggable(rules)(c);
  }

  /** In a merged class nobody but the primary stays unarchived, and the primary is archived only for its name. */
  lemma OnlyPrimaryStaysVisible(rules: TextRules, stamp: string, candidates: seq<Candidate>, c: Candidate)
    requires DistinctIds(candidates) && c in candidates
    requires !Conflicting(ClassOf(rules, candidates, c)) && |ClassOf(rules, candidates, c)| > 1
    ensures var g := ClassOf(rules, candidates, c);
            g != [] && (FinalRow(rules, stamp, candidates, c).isArchived <==>
                          c.id != ChoosePrimary(rules, g).id || IsLegacy(rules, ChoosePrimary(rules, g)))
  {
    hide ClassOf;
    var g := ClassOf(rules, candidates, c);
    ClassDistinct(rules, candidates, c);
    HasLoser(rules, g);
    hide Skipped, Losers, FlagTargets, Conflicting;
    if c.id == ChoosePrimary(rules, g).id {
      SameId(g, c, ChoosePrimary(rules, g));
    }
  }

  lemma ClassDistinct(rules: TextRules, candidates: seq<Candidate>, c: Candidate)
    requires DistinctIds(candidates) && c in candidates
    ensures c in ClassOf(rules, candidates, c) && DistinctIds(ClassOf(rules, candidates, c))
  {
    InOwnClass(rules, candidates, c);
    DistinctFilter(candidates, DuplicateOf(rules, candidates, c));
  }

  lemma HasLoser(rules: TextRules, g: seq<Candidate>)
    requires |g| > 1 && DistinctIds(g)
    ensures ChoosePrimary(rules, g) in g && !Skipped(rules, g)
  {
    hide ChoosePrimary;
    PrimaryInGroup(rules, g);
    var p := ChoosePrimary(rules, g);
    var other := if g[0].id == p.id then g[1] else g[0];
    assert IsNot(p)(other);
    assert other in Losers(p, g);
  }

  /** Records of a loaded client end at the primary of its class, or where they were when the class
      carries two strong identities. */
  lemma LoadedHome(rules: TextRules, candidates: seq<Candidate>, groups: seq<seq<Candidate>>, c: Candidate)
    requires DistinctIds(candidates) && AreDuplicateGroups(rules, candidates, groups) && c in candidates
    ensures NoneEmpty(groups) && ClassOf(rules, candidates, c) != []
    ensures HomeId(rules, false, groups, c.id) == Home(rules, ClassOf(rules, candidates, c), c)
  {
    GroupsAreApart(rules, candidates, groups);
    InOwnClass(rules, candidates, c);
    if k :| 0 <= k < |groups| && c in groups[k] {
      GroupIsClass(rules, candidates, groups, k, c);
      HomeInGroup(rules, groups, k, c);
    } else {
      UnreportedIsAlone(rules, candidates, groups, c);
      PrimaryInGroup(rules, [c]);
      forall k | 0 <= k < |groups| ensures c.id !in IdSet(groups[k]) {
        forall d | d in groups[k] ensures d.id != c.id {
          assert d in candidates;
        }
      }
      HomeInSameGroup(rules, false, groups, c.id);
    }
  }

  lemma NotMovedBefore(rules: TextRules, groups: seq<seq<Candidate>>, n: nat, id: string)
    requires Apart(groups) && n < |groups| && id in IdSet(groups[n])
    ensures HomeId(rules, false, groups[..n], id) == id
  {
    HomeInSameGroup(rules, false, groups[..n], id);
    forall j | 0 <= j < n ensures id !in IdSet(groups[..n][j]) {
      assert SharesNoId(groups, j, n);
    }
  }

  lemma {:induction false} HomeInGroup(rules: TextRules, groups: seq<seq<Candidate>>, k: nat, c: Candidate)
    requires Apart(groups) && k < |groups| && c in groups[k]
    ensures HomeId(rules, false, groups, c.id) == Home(rules, groups[k], c)
  {
    var n := |groups| - 1;
    assert groups[..n + 1] == groups;
    HomeStep(rules, false, groups, n, c.id);
    MovedInGroup(rules, false, groups[n]);
    if k == n {
      NotMovedBefore(rules, groups, n, c.id);
      var p := ChoosePrimary(rules, groups[n]);
      if c.id != p.id {
        assert IsNot(p)(c);
      }
    } else {
      forall i, j ensures SharesNoId(groups[..n], i, j) {
        assert SharesNoId(groups, i, j);
      }
      assert SharesNoId(groups, k, n);
      assert c.id in IdSet(groups[k]);
      HomeInGroup(rules, groups[..n], k, c);
    }
  }

  /** Records of clients that were not loaded stay where they are. */
  lemma OtherHome(rules: TextRules, candidates: seq<Candidate>, groups: seq<seq<Candidate>>, id: string)
    requires DistinctIds(candidates) && AreDuplicateGroups(rules, candidates, groups)
    requires forall c | c in candidates :: c.id != id
    ensures NoneEmpty(groups) && HomeId(rules, false, groups, id) == id
  {
    GroupsAreApart(rules, candidates, groups);
    HomeInSameGroup(rules, false, groups, id);
  }
}
