/** The records that hang below a client, when clients are merged and deleted (`apps/api/src/routes/crudRoutes.ts`). */
module ClientRecords {
  import opened Text
  import opened ClientRegistry

  /** Change log entries belong to an opportunity alone. */
  datatype Kind = Opportunity | Activity | TimelineEvent | Contact | AgendaEvent | AgendaStop | ChangeLog

  datatype Record = Record(kind: Kind, clientId: Option<string>, opportunity: Option<nat>)

  type Records = map<nat, Record>

  const MOVED_KINDS: seq<Kind> := [Opportunity, Activity, TimelineEvent, Contact, AgendaEvent, AgendaStop]

  predicate BelongsTo(r: Record, kinds: seq<Kind>, owner: string) {
    r.kind in kinds && r.clientId == Some(owner)
  }

  function Repointed(records: Records, kinds: seq<Kind>, owner: string, primary: string): Records {
    map k | k in records :: if BelongsTo(records[k], kinds, owner) then records[k].(clientId := Some(primary))
      else records[k]
  }

  predicate BelongsToAny(r: Record, owners: seq<string>) {
    r.kind != ChangeLog && r.clientId.Some? && r.clientId.value in owners
  }

  /** Every record of the owners with the primary, every other where it was. */
  function Rehomed(records: Records, owners: seq<string>, primary: string): Records {
    map k | k in records :: if BelongsToAny(records[k], owners) then records[k].(clientId := Some(primary))
      else records[k]
  }

  lemma RepointOneKind(records: Records, kinds: seq<Kind>, i: nat, owner: string, primary: string)
    requires i < |kinds| && owner != primary
    ensures Repointed(Repointed(records, kinds[..i], owner, primary), [kinds[i]], owner, primary)
            == Repointed(records, kinds[..i + 1], owner, primary)
  {
    assert kinds[..i + 1] == kinds[..i] + [kinds[i]];
  }

  lemma NobodyRehomed(records: Records, primary: string)
    ensures Rehomed(records, [], primary) == records
  {
  }

  lemma RehomeOne(records: Records, owners: seq<string>, i: nat, primary: string)
    requires i < |owners| && primary !in owners
    ensures Repointed(Rehomed(records, owners[..i], primary), MOVED_KINDS, owners[i], primary)
            == Rehomed(records, owners[..i + 1], primary)
  {
    assert owners[..i + 1] == owners[..i] + [owners[i]];
    forall kind: Kind ensures kind in MOVED_KINDS <==> kind != ChangeLog {
      assert MOVED_KINDS[0] == Opportunity && MOVED_KINDS[1] == Activity && MOVED_KINDS[2] == TimelineEvent;
      assert MOVED_KINDS[3] == Contact && MOVED_KINDS[4] == AgendaEvent && MOVED_KINDS[5] == AgendaStop;
    }
  }

  /** A merge loses no record and leaves none with a duplicate. */
  lemma MergeEmptiesDuplicates(records: Records, duplicates: seq<string>, primary: string, k: nat)
    requires k in records
    ensures var after := Rehomed(records, Distinct(duplicates, primary), primary);
            && after.Keys == records.Keys && after[k].kind == records[k].kind
              && after[k].opportunity == records[k].opportunity
            && (after[k].kind != ChangeLog && after[k].clientId.Some? && after[k].clientId.value in duplicates ==>
                  after[k].clientId.value == primary)
  {
  }

  /** The record hangs below one of the client's opportunities. */
  predicate BelowDealOf(records: Records, r: Record, id: string) {
    r.opportunity.Some? && r.opportunity.value in records && BelongsTo(records[r.opportunity.value], [Opportunity], id)
  }

  predicate DeletedWith(records: Records, r: Record, id: string) {
    match r.kind
    case Opportunity => r.clientId == Some(id)
    case Contact => r.clientId == Some(id)
    case AgendaStop => r.clientId == Some(id)
    case ChangeLog => BelowDealOf(records, r, id)
    case _ => r.clientId == Some(id) || BelowDealOf(records, r, id)
  }

  /** The records of the kinds that go, less those deleted with the client. */
  function Without(records: Records, kinds: seq<Kind>, id: string): Records {
    map k | k in records && !(records[k].kind in kinds && DeletedWith(records, records[k], id)) :: records[k]
  }

  const DELETED_KINDS: seq<Kind> := [Activity, TimelineEvent, Contact, AgendaStop, AgendaEvent, ChangeLog, Opportunity]

  /** Opportunities are deleted last, so every step sees those the deletion started with. */
  lemma DeleteOneKind(records: Records, i: nat, id: string)
    requires i < |DELETED_KINDS|
    ensures Without(Without(records, DELETED_KINDS[..i], id), [DELETED_KINDS[i]], id)
            == Without(records, DELETED_KINDS[..i + 1], id)
  {
    var done, kind := DELETED_KINDS[..i], DELETED_KINDS[i];
    assert DELETED_KINDS[..i + 1] == done + [kind];
    OpportunitiesLast(i);
    var before := Without(records, done, id);
    forall k | k in before ensures DeletedWith(before, before[k], id) <==> DeletedWith(records, records[k], id) {
      DealsStay(records, done, id, records[k]);
    }
  }

  lemma OpportunitiesLast(i: nat)
    requires i < |DELETED_KINDS|
    ensures Opportunity !in DELETED_KINDS[..i]
  {
    forall j | 0 <= j < i ensures DELETED_KINDS[j] != Opportunity {
      assert DELETED_KINDS == [Activity, TimelineEvent, Contact, AgendaStop, AgendaEvent, ChangeLog, Opportunity];
    }
  }

  lemma DealsStay(records: Records, kinds: seq<Kind>, id: string, r: Record)
    requires Opportunity !in kinds
    ensures BelowDealOf(Without(records, kinds, id), r, id) <==> BelowDealOf(records, r, id)
  {
  }

  /** What remains after a client is deleted refers to it no longer, change log entries aside, and no record of its
      opportunities remains but contacts and stops of other clients. */
  lemma DeletedClientIsGone(records: Records, id: string, k: nat)
    requires k in Without(records, DELETED_KINDS, id)
    ensures var r := Without(records, DELETED_KINDS, id)[k];
            && r == records[k] && (r.kind != ChangeLog ==> r.clientId != Some(id))
            && (BelowDealOf(records, r, id) ==> r.kind == Contact || r.kind == AgendaStop || r.kind == Opportunity)
  {
    assert DELETED_KINDS[0] == Activity && DELETED_KINDS[1] == TimelineEvent && DELETED_KINDS[2] == Contact;
    assert DELETED_KINDS[3] == AgendaStop && DELETED_KINDS[4] == AgendaEvent && DELETED_KINDS[5] == ChangeLog;
    assert DELETED_KINDS[6] == Opportunity;
  }
}
