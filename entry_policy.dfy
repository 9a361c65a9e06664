/** The facade's entry policy stated over the catalog's state: when an
    entry counts as changed, and what `create_entry` and `upsert_entry` do
    to the catalog, which requests they send and what they return.
 */
module EntryPolicy {
  import opened CatalogService

  /** The five fields entry comparison copies into a ValuesComparableObject
      agree pairwise. Name and timestamps are not among them. */
  predicate SameComparedFields(a: Entry, b: Entry)
    ensures SameComparedFields(a, b) <==> a.(name := b.name, updateTimeSeconds := b.updateTimeSeconds) == b
  {
    && a.userSpecifiedSystem == b.userSpecifiedSystem
    && a.userSpecifiedType == b.userSpecifiedType
    && a.displayName == b.displayName
    && a.description == b.description
    && a.linkedResource == b.linkedResource
  }

  /** The change-detection policy: the incoming entry carries a nonzero
      source-system update time that differs from the persisted one, or
      one of the five compared fields differs. */
  predicate NeedsUpdate(persisted: Entry, incoming: Entry)
    ensures !NeedsUpdate(persisted, incoming) ==>
              incoming.(name := persisted.name, updateTimeSeconds := persisted.updateTimeSeconds) == persisted
    ensures persisted.(name := incoming.name) == incoming ==> !NeedsUpdate(persisted, incoming)
  {
    || (incoming.updateTimeSeconds != 0 && persisted.updateTimeSeconds != incoming.updateTimeSeconds)
    || !SameComparedFields(persisted, incoming)
  }

  /** What one facade operation did: its result (or the failure it let
      through), the entries afterwards, and the requests it sent, in order. */
  datatype Effect<+T> = Effect(result: Outcome<T>, entries: Entries, requests: seq<Request>)

  /** `create_entry`: a permission-denied creation hands back the input
      entry and leaves the catalog as it was; other failures propagate. */
  function CreateEntryEffect(entries: Entries, faults: Faults, group: string, entryId: string, entry: Entry)
    : (e: Effect<Entry>)
    ensures e.requests == [CreateEntryRequest(group, entryId)]
    ensures e.result != Raised(PermissionDenied)
  {
    var reply := CreateEntryResult(entries, faults, group, entryId, entry);
    var sent := [CreateEntryRequest(group, entryId)];
    match reply.outcome
    case Ok(created) => Effect(Ok(created), reply.state, sent)
    case Raised(PermissionDenied()) => Effect(Ok(entry), entries, sent)
    case Raised(failure) => Effect(Raised(failure), entries, sent)
  }

  /** `upsert_entry`. The lookup and the update share one try block, so a
      permission-denied update also falls through to creation, and a
      failed-precondition update returns the copy already fetched. */
  function UpsertEntryEffect(entries: Entries, faults: Faults, group: string, entryId: string, entry: Entry)
    : (e: Effect<Entry>)
    ensures 1 <= |e.requests| <= 3 && e.requests[0] == GetEntryRequest(EntryName(group, entryId))
  {
    var name := EntryName(group, entryId);
    var lookup := [GetEntryRequest(name)];
    match GetEntryResult(entries, faults, name)
    case Ok(persisted) =>
      if !NeedsUpdate(persisted, entry) then Effect(Ok(persisted), entries, lookup)
      else
        var update := UpdateEntryResult(entries, faults, entry);
        var sent := lookup + [UpdateEntryRequest(entry.name)];
        (match update.outcome
         case Ok(updated) => Effect(Ok(updated), update.state, sent)
         case Raised(PermissionDenied()) =>
           var created := CreateEntryEffect(entries, faults, group, entryId, entry);
           created.(requests := sent + created.requests)
         case Raised(FailedPrecondition()) => Effect(Ok(persisted), entries, sent)
         case Raised(Other()) => Effect(Raised(Other), entries, sent))
    case Raised(PermissionDenied()) =>
      var created := CreateEntryEffect(entries, faults, group, entryId, entry);
      created.(requests := lookup + created.requests)
    case Raised(FailedPrecondition()) => Effect(Ok(entry), entries, lookup)
    case Raised(Other()) => Effect(Raised(Other), entries, lookup)
  }

  // ---------------------------------------------------------------------
  // Change detection

  /** With a zero incoming timestamp, entries that agree on the five fields
      never need an update, whatever their names or persisted timestamps. */
  lemma ZeroTimestampSameFieldsNeedsNoUpdate(persisted: Entry, incoming: Entry)
    requires incoming.updateTimeSeconds == 0 && SameComparedFields(persisted, incoming)
    ensures !NeedsUpdate(persisted, incoming)
  {
  }

  /** The policy looks at nothing outside the five fields and the two
      timestamps: entries differing only in their names are judged alike. */
  lemma NeedsUpdateIgnoresName(persisted: Entry, incoming: Entry, name1: string, name2: string)
    ensures NeedsUpdate(persisted.(name := name1), incoming.(name := name2)) == NeedsUpdate(persisted, incoming)
  {
  }

  /** An entry never needs an update against itself. */
  lemma NeedsUpdateIrreflexive(entry: Entry)
    ensures !NeedsUpdate(entry, entry)
  {
  }

  // ---------------------------------------------------------------------
  // create_entry

  /** A permission-denied creation leaves the catalog unchanged and returns
      the input entry unchanged. */
  lemma CreateDeniedReturnsInput(entries: Entries, faults: Faults, group: string, entryId: string, entry: Entry)
    requires CreateEntryResult(entries, faults, group, entryId, entry).outcome == Raised(PermissionDenied)
    ensures CreateEntryEffect(entries, faults, group, entryId, entry)
              == Effect(Ok(entry), entries, [CreateEntryRequest(group, entryId)])
  {
  }

  /** Creating a new name stores the entry under it and returns the stored copy. */
  lemma CreateNewEntryStoresIt(entries: Entries, faults: Faults, group: string, entryId: string, entry: Entry)
    requires CreateEntryRequest(group, entryId) !in faults && EntryName(group, entryId) !in entries
    ensures var stored := entry.(name := EntryName(group, entryId));
            CreateEntryEffect(entries, faults, group, entryId, entry)
              == Effect(Ok(stored), entries[EntryName(group, entryId) := stored], [CreateEntryRequest(group, entryId)])
  {
  }

  /** Only permission denied is caught: every other creation failure, a
      failed precondition included, reaches the caller with the catalog
      unchanged. */
  lemma CreateOtherFailurePropagates(entries: Entries, faults: Faults, group: string, entryId: string, entry: Entry, f: Failure)
    requires CreateEntryResult(entries, faults, group, entryId, entry).outcome == Raised(f) && f != PermissionDenied
    ensures CreateEntryEffect(entries, faults, group, entryId, entry)
              == Effect(Raised(f), entries, [CreateEntryRequest(group, entryId)])
  {
  }

  // ---------------------------------------------------------------------
  // upsert_entry

  /** A permission-denied lookup is followed by exactly one creation with
      the original group, id and entry, whose result is returned. */
  lemma UpsertDeniedLookupCreates(entries: Entries, faults: Faults, group: string, entryId: string, entry: Entry)
    requires GetEntryResult(entries, faults, EntryName(group, entryId)) == Raised(PermissionDenied)
    ensures var created := CreateEntryEffect(entries, faults, group, entryId, entry);
            UpsertEntryEffect(entries, faults, group, entryId, entry)
              == created.(requests := [GetEntryRequest(EntryName(group, entryId)), CreateEntryRequest(group, entryId)])
  {
  }

  /** An entry with no persisted copy (and no injected lookup failure) is
      created by exactly one create request, and no update is sent. */
  lemma UpsertAbsentEntryCreatesOnce(entries: Entries, faults: Faults, group: string, entryId: string, entry: Entry)
    requires EntryName(group, entryId) !in entries && GetEntryRequest(EntryName(group, entryId)) !in faults
    ensures UpsertEntryEffect(entries, faults, group, entryId, entry).requests
              == [GetEntryRequest(EntryName(group, entryId)), CreateEntryRequest(group, entryId)]
  {
  }

  /** When the persisted copy does not need an update, no update is sent,
      the catalog is untouched and the persisted copy is returned. */
  lemma UpsertUnchangedReturnsPersisted(entries: Entries, faults: Faults, group: string, entryId: string, entry: Entry)
    requires GetEntryResult(entries, faults, EntryName(group, entryId)).Ok?
    requires !NeedsUpdate(GetEntryResult(entries, faults, EntryName(group, entryId)).value, entry)
    ensures UpsertEntryEffect(entries, faults, group, entryId, entry)
              == Effect(Ok(entries[EntryName(group, entryId)]), entries, [GetEntryRequest(EntryName(group, entryId))])
  {
  }

  /** When it does need one, exactly one update of the input entry is sent
      right after the lookup, followed at most by the creation a denied
      update falls back to; a successful update's result is returned and
      the input entry replaces the stored one. */
  lemma UpsertChangedUpdatesOnce(entries: Entries, faults: Faults, group: string, entryId: string, entry: Entry)
    requires GetEntryResult(entries, faults, EntryName(group, entryId)).Ok?
    requires NeedsUpdate(GetEntryResult(entries, faults, EntryName(group, entryId)).value, entry)
    ensures var e := UpsertEntryEffect(entries, faults, group, entryId, entry);
            var sent := [GetEntryRequest(EntryName(group, entryId)), UpdateEntryRequest(entry.name)];
            && (e.requests == sent || e.requests == sent + [CreateEntryRequest(group, entryId)])
            && (UpdateEntryResult(entries, faults, entry).outcome.Ok? ==>
                  e == Effect(Ok(entry), entries[entry.name := entry], sent))
  {
  }

  /** A failed-precondition lookup leaves the catalog unchanged and returns
      the input entry as it is. */
  lemma UpsertPreconditionReturnsInput(entries: Entries, faults: Faults, group: string, entryId: string, entry: Entry)
    requires GetEntryResult(entries, faults, EntryName(group, entryId)) == Raised(FailedPrecondition)
    ensures UpsertEntryEffect(entries, faults, group, entryId, entry)
              == Effect(Ok(entry), entries, [GetEntryRequest(EntryName(group, entryId))])
  {
  }

  /** A failed-precondition update returns the fetched copy, not the input. */
  lemma UpsertPreconditionOnUpdateReturnsPersisted(entries: Entries, faults: Faults, group: string, entryId: string, entry: Entry)
    requires GetEntryResult(entries, faults, EntryName(group, entryId)).Ok?
    requires NeedsUpdate(GetEntryResult(entries, faults, EntryName(group, entryId)).value, entry)
    requires UpdateEntryResult(entries, faults, entry).outcome == Raised(FailedPrecondition)
    ensures UpsertEntryEffect(entries, faults, group, entryId, entry).result == Ok(entries[EntryName(group, entryId)])
    ensures UpsertEntryEffect(entries, faults, group, entryId, entry).entries == entries
  {
  }

  /** A permission-denied update falls through to creation with the
      original arguments. */
  lemma UpsertDeniedUpdateCreates(entries: Entries, faults: Faults, group: string, entryId: string, entry: Entry)
    requires GetEntryResult(entries, faults, EntryName(group, entryId)).Ok?
    requires NeedsUpdate(GetEntryResult(entries, faults, EntryName(group, entryId)).value, entry)
    requires UpdateEntryResult(entries, faults, entry).outcome == Raised(PermissionDenied)
    ensures var created := CreateEntryEffect(entries, faults, group, entryId, entry);
            var e := UpsertEntryEffect(entries, faults, group, entryId, entry);
            e.result == created.result && e.entries == created.entries &&
            e.requests == [GetEntryRequest(EntryName(group, entryId)), UpdateEntryRequest(entry.name), CreateEntryRequest(group, entryId)]
  {
  }

  /** Permission denied never escapes an upsert: it is either turned into
      a creation or absorbed by the creation. */
  lemma UpsertNeverRaisesPermissionDenied(entries: Entries, faults: Faults, group: string, entryId: string, entry: Entry)
    ensures UpsertEntryEffect(entries, faults, group, entryId, entry).result != Raised(PermissionDenied)
  {
  }

  /** Failures the upsert does not handle reach the caller with the catalog
      unchanged: a lookup or an update raising anything but permission
      denied or a failed precondition, and any creation failure other than
      permission denied on either path to creation. */
  lemma UpsertOtherFailurePropagates(entries: Entries, faults: Faults, group: string, entryId: string, entry: Entry, f: Failure)
    ensures var name := EntryName(group, entryId);
            var e := UpsertEntryEffect(entries, faults, group, entryId, entry);
            GetEntryResult(entries, faults, name) == Raised(Other) ==>
              e == Effect(Raised(Other), entries, [GetEntryRequest(name)])
    ensures var name := EntryName(group, entryId);
            var e := UpsertEntryEffect(entries, faults, group, entryId, entry);
            && GetEntryResult(entries, faults, name).Ok?
            && NeedsUpdate(GetEntryResult(entries, faults, name).value, entry)
            && UpdateEntryResult(entries, faults, entry).outcome == Raised(Other)
            ==> e == Effect(Raised(Other), entries, [GetEntryRequest(name), UpdateEntryRequest(entry.name)])
    ensures var name := EntryName(group, entryId);
            var e := UpsertEntryEffect(entries, faults, group, entryId, entry);
            && (|| GetEntryResult(entries, faults, name) == Raised(PermissionDenied)
                || (&& GetEntryResult(entries, faults, name).Ok?
                    && NeedsUpdate(GetEntryResult(entries, faults, name).value, entry)
                    && UpdateEntryResult(entries, faults, entry).outcome == Raised(PermissionDenied)))
            && CreateEntryResult(entries, faults, group, entryId, entry).outcome == Raised(f)
            && f != PermissionDenied
            ==> && e.result == Raised(f)
                && e.entries == entries
                && e.requests[|e.requests| - 1] == CreateEntryRequest(group, entryId)
  {
  }

  /** The scenario of a persisted display name "A" and an incoming "B",
      both timestamps zero: exactly one update, carrying the new entry. */
  lemma UpsertDisplayNameChangeScenario(entries: Entries, faults: Faults, group: string, entryId: string, entry: Entry)
    requires EntryName(group, entryId) in entries && GetEntryRequest(EntryName(group, entryId)) !in faults
    requires entries[EntryName(group, entryId)].displayName == "A" && entry.displayName == "B"
    requires entries[EntryName(group, entryId)].updateTimeSeconds == 0 && entry.updateTimeSeconds == 0
    ensures var e := UpsertEntryEffect(entries, faults, group, entryId, entry);
            var sent := [GetEntryRequest(EntryName(group, entryId)), UpdateEntryRequest(entry.name)];
            e.requests == sent || e.requests == sent + [CreateEntryRequest(group, entryId)]
  {
    UpsertChangedUpdatesOnce(entries, faults, group, entryId, entry);
  }
}
